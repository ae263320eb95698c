/**
 The cache lock: one writer fills a key while readers wait behind it.

 A `LockCore` is shared by the lock table, one write permit and any number of
 readers. Cores are kept in an arena (`cores`), so that the `Arc` of the source
 becomes an index. `Lock` and `Release` are one atomic step each; a reader that
 gives up on an old writer stores `AgeTimeout` in a step of its own, which may
 come at any time and finds the core in any status.
 */
module LockProtocol {

  datatype LockStatus = Waiting | Done | TransientError | GiveUp | Dangling | WaitTimeout | AgeTimeout

  type Key = nat
  type CoreId = nat

  /** `wakeups` counts the permits added to the core's semaphore; readers block while it is 0. */
  datatype Core = Core(status: LockStatus, wakeups: nat)

  /** `permits` maps each outstanding, unfinished write permit to the key it was locked with. */
  datatype State = State(cores: seq<Core>, table: map<Key, CoreId>, permits: map<CoreId, Key>)

  datatype Locked = Write(core: CoreId) | Read(core: CoreId)

  const UNLOCK_WAKEUPS := 10

  /** Statuses that leave the entry in the table for the next request to replace. */
  predicate Replaceable(status: LockStatus) {
    status.Dangling? || status.AgeTimeout?
  }

  /** `WaitTimeout` is refused by an assertion; `Waiting` would claim the writer is still at work. */
  predicate FinalReason(reason: LockStatus) {
    !reason.Waiting? && !reason.WaitTimeout?
  }

  // ----- The steps, as functions of the whole state -----

  const INIT := State([], map[], map[])

  function LockSpec(s: State, key: Key): State
    requires key in s.table ==> s.table[key] < |s.cores|
  {
    if key in s.table && !Replaceable(s.cores[s.table[key]].status) then s
    else
      var c := |s.cores|;
      State(s.cores + [Core(Waiting, 0)], s.table[key := c], s.permits[c := key])
  }

  /** Store a final status, wake the readers and forget the permit. */
  function Unlocked(s: State, c: CoreId, reason: LockStatus): State
    requires c < |s.cores|
  {
    s.(cores := s.cores[c := Core(reason, s.cores[c].wakeups + UNLOCK_WAKEUPS)],
       permits := s.permits - {c})
  }

  /** The second half of a release: drop the entry under `key`, whoever owns it, and unlock. */
  function CommitRelease(s: State, key: Key, c: CoreId, reason: LockStatus): State
    requires c < |s.cores|
  {
    if key in s.table then Unlocked(s.(table := s.table - {key}), c, reason)
    else Unlocked(s, c, Dangling)  // the unfinished permit is dropped
  }

  function ReleaseSpec(s: State, key: Key, c: CoreId, reason: LockStatus): State
    requires c < |s.cores|
  {
    if s.cores[c].status.AgeTimeout? then Unlocked(s, c, AgeTimeout)
    else CommitRelease(s, key, c, reason)
  }

  function AgeOutSpec(s: State, c: CoreId): State
    requires c < |s.cores|
  {
    s.(cores := s.cores[c := s.cores[c].(status := AgeTimeout)])
  }

  datatype Step =
    | LockKey(key: Key)
    | ReleasePermit(core: CoreId, reason: LockStatus)
    | DropPermit(core: CoreId)
    | AgeOut(core: CoreId)

  predicate Enabled(s: State, step: Step) {
    match step
    case LockKey(key) => key in s.table ==> s.table[key] < |s.cores|
    case ReleasePermit(c, reason) => c in s.permits && c < |s.cores| && FinalReason(reason)
    case DropPermit(c) => c in s.permits && c < |s.cores|
    case AgeOut(c) => c < |s.cores|
  }

  /** A permit is released under the key it was locked with. */
  function Next(s: State, step: Step): State
    requires Enabled(s, step)
  {
    match step
    case LockKey(key) => LockSpec(s, key)
    case ReleasePermit(c, reason) => ReleaseSpec(s, s.permits[c], c, reason)
    case DropPermit(c) => Unlocked(s, c, Dangling)
    case AgeOut(c) => AgeOutSpec(s, c)
  }

  ghost predicate Runs(s: State, steps: seq<Step>, t: State)
    decreases |steps|
  {
    if steps == [] then s == t
    else Enabled(s, steps[0]) && Runs(Next(s, steps[0]), steps[1..], t)
  }

  // ----- The protocol invariant -----

  ghost predicate PermitOk(s: State, c: CoreId)
    requires c in s.permits
  {
    && c < |s.cores|
    && s.cores[c].wakeups == 0
    && (s.cores[c].status.AgeTimeout?
        || (s.cores[c].status.Waiting? && s.permits[c] in s.table && s.table[s.permits[c]] == c))
  }

  /** A table entry is its own writer's, or it is free to be replaced. */
  ghost predicate EntryOk(s: State, key: Key)
    requires key in s.table
  {
    var c := s.table[key];
    && c < |s.cores|
    && (c in s.permits ==> s.permits[c] == key)
    && (c !in s.permits ==> Replaceable(s.cores[c].status))
  }

  ghost predicate CoreOk(s: State, c: CoreId)
    requires c < |s.cores|
  {
    c !in s.permits ==> FinalReason(s.cores[c].status) && s.cores[c].wakeups == UNLOCK_WAKEUPS
  }

  ghost predicate Protocol(s: State) {
    && (forall c | c in s.permits :: PermitOk(s, c))
    && (forall key | key in s.table :: EntryOk(s, key))
    && (forall c | 0 <= c < |s.cores| :: CoreOk(s, c))
  }

  /**
   Unlocking `c`, after removing the keys outside `table`, keeps the protocol if no
   removed entry belonged to another waiting writer, and if an entry of `c` that is
   left in the table is left as one to replace.
   */
  lemma {:induction false} UnlockKeepsProtocol(s: State, table: map<Key, CoreId>, c: CoreId, status: LockStatus)
    requires Protocol(s) && c in s.permits && c < |s.cores| && FinalReason(status)
    requires forall key | key in table :: key in s.table && table[key] == s.table[key]
    requires forall key | key in s.table && key !in table :: s.table[key] == c || !Held(s, s.table[key])
    requires Replaceable(status) || (forall key | key in table :: table[key] != c)
    ensures Protocol(Unlocked(s.(table := table), c, status))
  {
    var t := Unlocked(s.(table := table), c, status);
    assert PermitOk(s, c);
    forall d | d in t.permits ensures PermitOk(t, d) { assert PermitOk(s, d); }
    forall key | key in t.table ensures EntryOk(t, key) { assert EntryOk(s, key); }
    forall d: nat | d < |t.cores| ensures CoreOk(t, d) { assert CoreOk(s, d); }
  }

  /** The core of an outstanding permit that still waits. */
  ghost predicate Held(s: State, c: CoreId) {
    c in s.permits && c < |s.cores| && s.cores[c].status.Waiting?
  }

  lemma {:induction false} LockKeepsProtocol(s: State, key: Key)
    requires Protocol(s) && Enabled(s, LockKey(key))
    ensures Protocol(LockSpec(s, key))
  {
    var t := LockSpec(s, key);
    if t != s {
      forall d | d in t.permits ensures PermitOk(t, d) { if d in s.permits { assert PermitOk(s, d); } }
      forall k | k in t.table ensures EntryOk(t, k) { if k != key { assert EntryOk(s, k); } }
      forall d: nat | d < |t.cores| ensures CoreOk(t, d) { if d < |s.cores| { assert CoreOk(s, d); } }
    }
  }

  lemma {:induction false} AgeOutKeepsProtocol(s: State, c: CoreId)
    requires Protocol(s) && c < |s.cores|
    ensures Protocol(AgeOutSpec(s, c))
  {
    var t := AgeOutSpec(s, c);
    forall d | d in t.permits ensures PermitOk(t, d) { assert PermitOk(s, d); }
    forall key | key in t.table ensures EntryOk(t, key) { assert EntryOk(s, key); }
    forall d: nat | d < |t.cores| ensures CoreOk(t, d) { assert CoreOk(s, d); }
  }

  lemma {:induction false} StepKeepsProtocol(s: State, step: Step)
    requires Protocol(s) && Enabled(s, step)
    ensures Protocol(Next(s, step))
  {
    match step
    case LockKey(key) => LockKeepsProtocol(s, key);
    case AgeOut(c) => AgeOutKeepsProtocol(s, c);
    case DropPermit(c) => UnlockKeepsProtocol(s, s.table, c, Dangling);
    case ReleasePermit(c, reason) =>
      assert PermitOk(s, c);
      if s.cores[c].status.AgeTimeout? {
        UnlockKeepsProtocol(s, s.table, c, AgeTimeout);
      } else {
        OwnEntryOnly(s, c);
        UnlockKeepsProtocol(s, s.table - {s.permits[c]}, c, reason);
      }
  }

  lemma {:induction false} OwnEntryOnly(s: State, c: CoreId)
    requires Protocol(s) && c in s.permits
    ensures forall key | key in s.table && s.table[key] == c :: key == s.permits[c]
  {
    forall key | key in s.table && s.table[key] == c ensures key == s.permits[c] { assert EntryOk(s, key); }
  }

  /** Every run of lock, release, drop and age-out steps stays within the protocol. */
  lemma {:induction false} RunsKeepProtocol(s: State, steps: seq<Step>, t: State)
    requires Protocol(s) && Runs(s, steps, t)
    ensures Protocol(t)
    decreases |steps|
  {
    if steps != [] {
      StepKeepsProtocol(s, steps[0]);
      RunsKeepProtocol(Next(s, steps[0]), steps[1..], t);
    }
  }

  // ----- What the protocol means for callers -----

  /** Each key has at most one unreleased permit still `Waiting`, and the table holds its core. */
  lemma {:induction false} OneWriterPerKey(steps: seq<Step>, s: State, c: CoreId, d: CoreId)
    requires Runs(INIT, steps, s)
    requires c in s.permits && d in s.permits && s.permits[c] == s.permits[d]
    requires c < |s.cores| && d < |s.cores|
    requires s.cores[c].status.Waiting? && s.cores[d].status.Waiting?
    ensures c == d && s.permits[c] in s.table && s.table[s.permits[c]] == c
  {
    RunsKeepProtocol(INIT, steps, s);
    assert PermitOk(s, c) && PermitOk(s, d);
  }

  /** `lock` makes a request wait only behind a permit that is outstanding and still `Waiting`. */
  lemma {:induction false} ReadersWaitForLiveWriters(steps: seq<Step>, s: State, key: Key)
    requires Runs(INIT, steps, s)
    requires key in s.table
    ensures s.table[key] < |s.cores|
    ensures !Replaceable(s.cores[s.table[key]].status) ==>
              s.table[key] in s.permits && s.permits[s.table[key]] == key && s.cores[s.table[key]].status.Waiting?
  {
    RunsKeepProtocol(INIT, steps, s);
    assert EntryOk(s, key);
    if s.table[key] in s.permits { assert PermitOk(s, s.table[key]); }
  }

  /**
   A release never falls through to a dangling lock and never touches an entry of
   another writer: it removes exactly its own entry, or, once aged out, none.
   */
  lemma {:induction false} ReleaseTouchesOnlyItsOwnEntry(steps: seq<Step>, s: State, c: CoreId, reason: LockStatus)
    requires Runs(INIT, steps, s) && Enabled(s, ReleasePermit(c, reason))
    ensures var t := Next(s, ReleasePermit(c, reason));
            var key := s.permits[c];
            && t.cores[c].status == (if s.cores[c].status.AgeTimeout? then AgeTimeout else reason)
            && t.cores[c].wakeups == UNLOCK_WAKEUPS
            && t.permits == s.permits - {c}
            && (s.cores[c].status.AgeTimeout? ==> t.table == s.table)
            && (!s.cores[c].status.AgeTimeout? ==> key in s.table && s.table[key] == c && t.table == s.table - {key})
  {
    RunsKeepProtocol(INIT, steps, s);
    assert PermitOk(s, c);
  }

  /** Once a writer is aged out, no run brings it back, and its late release leaves the table alone. */
  lemma {:induction false} AgedOutWriterStaysOut(s: State, steps: seq<Step>, t: State, c: CoreId, reason: LockStatus)
    requires Protocol(s) && Runs(s, steps, t)
    requires c in s.permits && c < |s.cores| && s.cores[c].status.AgeTimeout?
    requires c in t.permits && FinalReason(reason)
    ensures c < |t.cores| && t.cores[c].status.AgeTimeout? && t.permits[c] == s.permits[c]
    ensures ReleaseSpec(t, t.permits[c], c, reason).table == t.table
    decreases |steps|
  {
    if steps != [] {
      var u := Next(s, steps[0]);
      StepKeepsProtocol(s, steps[0]);
      if c !in u.permits {
        FinishedStaysFinished(u, steps[1..], t, c);
      } else {
        AgedOutWriterStaysOut(u, steps[1..], t, c, reason);
      }
    }
  }

  /** A finished core wakes every later reader, and none of them reads `Waiting` from it. */
  lemma {:induction false} FinishedStaysFinished(s: State, steps: seq<Step>, t: State, c: CoreId)
    requires Protocol(s) && Runs(s, steps, t)
    requires c < |s.cores| && c !in s.permits
    ensures c < |t.cores| && c !in t.permits
    ensures t.cores[c].wakeups > 0 && FinalReason(t.cores[c].status)
    decreases |steps|
  {
    assert CoreOk(s, c);
    if steps != [] {
      StepKeepsProtocol(s, steps[0]);
      FinishedStaysFinished(Next(s, steps[0]), steps[1..], t, c);
    }
  }

  // ----- Exactly when a release keeps the protocol -----

  /**
   Releasing under an arbitrary key keeps the protocol exactly when the key is the permit's
   own, or the permit was aged out, or nothing is locked under that key, or the reason
   leaves the permit's own entry to be replaced and the entry removed was no waiting
   writer's.
   */
  lemma {:induction false} ReleaseKeepsProtocolIff(s: State, key: Key, c: CoreId, reason: LockStatus)
    requires Protocol(s) && c in s.permits && FinalReason(reason) && c < |s.cores|
    ensures Protocol(ReleaseSpec(s, key, c, reason)) <==>
            || key == s.permits[c] || s.cores[c].status.AgeTimeout? || key !in s.table
            || (Replaceable(reason) && !Held(s, s.table[key]))
  {
    var t := ReleaseSpec(s, key, c, reason);
    assert PermitOk(s, c);
    if key == s.permits[c] {
      StepKeepsProtocol(s, ReleasePermit(c, reason));
    } else if s.cores[c].status.AgeTimeout? || key !in s.table {
      UnlockKeepsProtocol(s, s.table, c, if s.cores[c].status.AgeTimeout? then AgeTimeout else Dangling);
    } else if !Replaceable(reason) {
      assert !EntryOk(t, s.permits[c]);
    } else if Held(s, s.table[key]) {
      OwnEntryOnly(s, c);
      assert !PermitOk(t, s.table[key]);
    } else {
      UnlockKeepsProtocol(s, s.table - {key}, c, reason);
    }
  }

  /**
   If other steps come between reading the status and removing the entry, the
   release keeps the protocol exactly when no newer writer has taken the entry.
   */
  lemma {:induction false} SplitReleaseKeepsProtocolIff(s: State, c: CoreId, reason: LockStatus)
    requires Protocol(s) && c in s.permits && FinalReason(reason)
    requires c < |s.cores|
    ensures var key := s.permits[c];
            Protocol(CommitRelease(s, key, c, reason)) <==>
            !(key in s.table && s.table[key] != c && Held(s, s.table[key]))
  {
    var key := s.permits[c];
    var t := CommitRelease(s, key, c, reason);
    assert PermitOk(s, c);
    if key !in s.table {
      UnlockKeepsProtocol(s, s.table, c, Dangling);
    } else if s.table[key] != c && Held(s, s.table[key]) {
      assert !PermitOk(t, s.table[key]);
    } else {
      assert EntryOk(s, key) && CoreOk(s, s.table[key]);
      OwnEntryOnly(s, c);
      UnlockKeepsProtocol(s, s.table - {key}, c, reason);
    }
  }

  /** Such an interleaving exists: the writer is aged out and replaced after reading `Waiting`. */
  lemma {:induction false} SplitReleaseCanEvictNewWriter() returns (s: State)
    ensures Runs(INIT, [LockKey(7), AgeOut(0), LockKey(7)], s)
    ensures 0 in s.permits && 1 in s.permits && |s.cores| == 2 && s.cores[1].status.Waiting?
    ensures var t := CommitRelease(s, 7, 0, Done);
            7 !in t.table && 1 in t.permits && t.cores[1].status.Waiting? && !Protocol(t)
  {
    var s1 := LockSpec(INIT, 7);
    var s2 := AgeOutSpec(s1, 0);
    s := LockSpec(s2, 7);
    var steps := [LockKey(7), AgeOut(0), LockKey(7)];
    assert steps[1..] == [AgeOut(0), LockKey(7)] && steps[1..][1..] == [LockKey(7)];
    assert Runs(s2, [LockKey(7)], s);
    assert Runs(s1, steps[1..], s);
    assert !PermitOk(CommitRelease(s, 7, 0, Done), 1);
  }

  // ----- The lock manager itself -----

  class CacheLock {
    var cores: seq<Core>
    var table: map<Key, CoreId>
    var permits: map<CoreId, Key>

    ghost function View(): State
      reads this
    {
      State(cores, table, permits)
    }

    constructor ()
      ensures View() == INIT && Protocol(View())
    {
      cores, table, permits := [], map[], map[];
    }

    method UnlockCore(c: CoreId, reason: LockStatus)
      requires c < |cores| && FinalReason(reason)
      modifies this
      ensures View() == Unlocked(old(View()), c, reason)
    {
      permits := permits - {c};
      var woken := cores[c].wakeups + UNLOCK_WAKEUPS;
      cores := cores[c := Core(reason, woken)];
    }

    method Lock(key: Key) returns (locked: Locked)
      requires Protocol(View())
      modifies this
      ensures Protocol(View()) && View() == LockSpec(old(View()), key)
      ensures locked.core < |cores| && key in table && table[key] == locked.core
      ensures locked.Write? ==> locked.core !in old(permits) && locked.core in permits && permits[locked.core] == key
      ensures locked.Read? ==> View() == old(View()) && locked.core in permits && cores[locked.core].status.Waiting?
    {
      StepKeepsProtocol(View(), LockKey(key)) by { if key in table { assert EntryOk(View(), key); } }
      if key in table {
        assert EntryOk(View(), key);
        var c := table[key];
        if !Replaceable(cores[c].status) {
          if c in permits { assert PermitOk(View(), c); }
          return Read(c);
        }
      }
      var c := |cores|;
      assert c !in permits by { assert forall d | d in permits :: PermitOk(View(), d); }
      cores := cores + [Core(Waiting, 0)];
      permits := permits[c := key];
      table := table[key := c];
      locked := Write(c);
    }

    method Release(key: Key, c: CoreId, reason: LockStatus)
      requires Protocol(View()) && c in permits && FinalReason(reason)
      modifies this
      ensures View() == ReleaseSpec(old(View()), key, c, reason)
      ensures key == old(permits[c]) ==> Protocol(View())
    {
      assert PermitOk(View(), c);
      if key == permits[c] { StepKeepsProtocol(View(), ReleasePermit(c, reason)); }
      if cores[c].status == AgeTimeout {
        UnlockCore(c, AgeTimeout);
      } else if key in table {
        table := table - {key};
        UnlockCore(c, reason);
      } else {
        UnlockCore(c, Dangling);  // dropping the unfinished permit
      }
    }

    /** A permit that goes out of scope before it is finished. */
    method Drop(c: CoreId)
      requires Protocol(View()) && c in permits
      modifies this
      ensures Protocol(View()) && View() == Unlocked(old(View()), c, Dangling)
    {
      assert PermitOk(View(), c);
      StepKeepsProtocol(View(), DropPermit(c));
      UnlockCore(c, Dangling);
    }

    /** A reader finds that the writer has held the lock for longer than its age allows. */
    method StoreAgeTimeout(c: CoreId)
      requires Protocol(View()) && c < |cores|
      modifies this
      ensures Protocol(View()) && View() == AgeOutSpec(old(View()), c)
    {
      StepKeepsProtocol(View(), AgeOut(c));
      cores := cores[c := cores[c].(status := AgeTimeout)];
    }
  }
}
