/**
 The waiter registry stays small. Nobody removes a departed reader's entry on leaving;
 each registration examines at most eight entries. If at most `L` readers are live at
 any moment, the vector stays within a bound linear in `L` for every run, and every
 departed reader is reclaimed after a number of registrations that is linear in `L`.

 The argument follows the cursor around the vector. During one lap, every entry the
 cursor has passed was live at some point of the lap, so it belongs to a reader that was
 live when the lap began or that registered since; and the entries still ahead of the
 cursor shrink by seven with each registration.
 */
module FillBound {
  import opened Basics
  import opened FillRegistry

  /** Bookkeeping for one lap: who may be behind the cursor, and how long the lap can take. */
  datatype Lap = Lap(
    touched: set<Id>,   // live when the lap began, or registered since
    regs: nat,          // registrations since
    start: nat)         // entries ahead of the cursor when the lap began

  /** Entries a lap can begin with: the fixed point of `x = L + x / 7 + 1`. */
  function LapBound(L: nat): nat { 7 * (L + 1) / 6 }

  /** Registrations a lap can take. */
  function LapLength(L: nat): nat { LapBound(L) / 7 + 1 }

  function RegistryBound(L: nat): nat { LapBound(L) + L / 7 + 1 }

  function ReclaimBound(L: nat): nat { 2 * LapLength(L) + 2 }

  /** `credit` is what is left of the sweep budget of the current registration. */
  ghost predicate LapOk(ws: seq<Waiter>, cursor: nat, closed: set<Id>, lap: Lap, L: nat, credit: nat) {
    var passed := Min(cursor, |ws|);
    && Distinct(ws)
    && (forall j | 0 <= j < passed :: ws[j].id in lap.touched)
    && LiveIds(ws, closed) <= lap.touched
    && |lap.touched| <= L + lap.regs
    && |ws| - passed + 7 * lap.regs <= lap.start - 1 + credit
    && lap.start <= LapBound(L)
    && |ws| <= LapBound(L) + lap.regs
  }

  lemma {:induction false} DistinctBound(ws: seq<Waiter>, ids: set<Id>)
    requires Distinct(ws) && forall j | 0 <= j < |ws| :: ws[j].id in ids
    ensures |ws| <= |ids|
  {
    if ws != [] {
      var last := ws[|ws| - 1];
      DistinctBound(ws[..|ws| - 1], ids - {last.id});
    }
  }

  /** The vector never outgrows the bound while its lap is in order. */
  lemma {:induction false} LapOkBounds(ws: seq<Waiter>, cursor: nat, closed: set<Id>, lap: Lap, L: nat)
    requires LapOk(ws, cursor, closed, lap, L, SWEEP_BUDGET)
    ensures |ws| <= RegistryBound(L)
    ensures lap.regs <= LapLength(L)
  {
    var passed := Min(cursor, |ws|);
    DistinctBound(ws[..passed], lap.touched);
    assert 7 * |ws| <= 7 * LapBound(L) + L + 7;
  }

  /** At the end of a lap everything left was live during it; a new lap may begin. */
  lemma {:induction false} NewLap(
      ws: seq<Waiter>, cursor: nat, closed: set<Id>, lap: Lap, L: nat, credit: nat) returns (lap': Lap)
    requires 1 <= credit <= SWEEP_BUDGET && ws != [] && cursor >= |ws|
    requires LapOk(ws, cursor, closed, lap, L, credit)
    requires |LiveIds(ws, closed)| <= L
    ensures lap' == Lap(LiveIds(ws, closed), 0, |ws|)
    ensures LapOk(ws, 0, closed, lap', L, 1)
    ensures forall j | 0 <= j < |ws| :: ws[j].id in lap.touched
    ensures lap.regs <= LapLength(L)
  {
    lap' := Lap(LiveIds(ws, closed), 0, |ws|);
    DistinctBound(ws, lap.touched);
    assert |ws| <= L + LapBound(L) / 7 + 1 <= LapBound(L);
  }

  /** How many more registrations an entry of a departed reader can survive. */
  ghost function Patience(ws: seq<Waiter>, lap: Lap, id: Id, L: nat): int {
    if !Listed(ws, id) then 0
    else if id !in lap.touched then LapLength(L) + 1 - lap.regs
    else 2 * LapLength(L) + 2 - lap.regs
  }

  /** The cursor moves past a live entry. */
  lemma {:induction false} PassLive(ws: seq<Waiter>, at: nat, closed: set<Id>, lap: Lap, L: nat, credit: nat)
    requires at < |ws| && Live(ws[at], closed) && 1 <= credit
    requires LapOk(ws, at, closed, lap, L, credit)
    ensures LapOk(ws, at + 1, closed, lap, L, credit - 1)
  {
    assert ws[at].id in LiveIds(ws, closed);
  }

  /** The entry of a departed reader is dropped, and an unexamined one takes its place. */
  lemma {:induction false} DropClosed(ws: seq<Waiter>, at: nat, closed: set<Id>, lap: Lap, L: nat, credit: nat)
    requires at < |ws| && !Live(ws[at], closed) && 1 <= credit
    requires LapOk(ws, at, closed, lap, L, credit)
    ensures LapOk(SwapRemove(ws, at), at, closed, lap, L, credit - 1)
    ensures LiveIds(SwapRemove(ws, at), closed) == LiveIds(ws, closed)
    ensures forall id | Listed(SwapRemove(ws, at), id) :: Listed(ws, id)
  {
    SwapRemoveDropsOne(ws, at);
    var rest := SwapRemove(ws, at);
    forall id | Listed(rest, id) ensures Listed(ws, id) {
      var i :| 0 <= i < |rest| && rest[i].id == id;
      assert rest[i] in ws;
    }
  }

  /** The cursor stands on an entry, if need be at the start of a new lap. */
  lemma {:induction false} Wrapped(
      ws: seq<Waiter>, cursor: nat, closed: set<Id>, lap: Lap, L: nat, credit: nat, dead: Id)
    returns (mid: Lap)
    requires 1 <= credit <= SWEEP_BUDGET && ws != [] && LapOk(ws, cursor, closed, lap, L, credit)
    requires |LiveIds(ws, closed)| <= L
    ensures LapOk(ws, if cursor >= |ws| then 0 else cursor, closed, mid, L, credit)
    ensures dead in closed ==> Patience(ws, mid, dead, L) <= Patience(ws, lap, dead, L)
  {
    mid := lap;
    if cursor >= |ws| {
      mid := NewLap(ws, cursor, closed, lap, L, credit);
      assert dead in closed ==> dead !in mid.touched;
    }
  }

  lemma {:induction false} DroppedHasNoMorePatience(ws: seq<Waiter>, at: nat, lap: Lap, L: nat, dead: Id)
    requires at < |ws| && lap.regs <= LapLength(L)
    requires forall id | Listed(SwapRemove(ws, at), id) :: Listed(ws, id)
    ensures Patience(SwapRemove(ws, at), lap, dead, L) <= Patience(ws, lap, dead, L)
  {
  }

  lemma {:induction false} SweepOne(
      ws: seq<Waiter>, cursor: nat, closed: set<Id>, lap: Lap, L: nat, credit: nat, dead: Id)
    returns (rest: seq<Waiter>, at: nat, mid: Lap)
    requires 1 <= credit <= SWEEP_BUDGET && ws != [] && LapOk(ws, cursor, closed, lap, L, credit)
    requires |LiveIds(ws, closed)| <= L
    ensures Sweep(ws, cursor, closed, credit) == Sweep(rest, at, closed, credit - 1)
    ensures LapOk(rest, at, closed, mid, L, credit - 1) && LiveIds(rest, closed) == LiveIds(ws, closed)
    ensures dead in closed ==> Patience(rest, mid, dead, L) <= Patience(ws, lap, dead, L)
  {
    rest, at := ws, if cursor >= |ws| then 0 else cursor;
    mid := Wrapped(ws, cursor, closed, lap, L, credit, dead);
    if Live(ws[at], closed) {
      PassLive(ws, at, closed, mid, L, credit);
      at := at + 1;
    } else {
      RegsBounded(ws, at, closed, mid, L, credit);
      DropClosed(ws, at, closed, mid, L, credit);
      DroppedHasNoMorePatience(ws, at, mid, L, dead);
      rest := SwapRemove(ws, at);
    }
  }

  /** One sweep, entry by entry: the books stay in order and no departed entry gains time. */
  lemma {:induction false} SweepKeepsLap(
      ws: seq<Waiter>, cursor: nat, closed: set<Id>, lap: Lap, L: nat, credit: nat, dead: Id)
    returns (lap': Lap)
    requires credit <= SWEEP_BUDGET && LapOk(ws, cursor, closed, lap, L, credit)
    requires |LiveIds(ws, closed)| <= L
    ensures var (ws', cursor') := Sweep(ws, cursor, closed, credit);
            && (ws' == [] || LapOk(ws', cursor', closed, lap', L, 0))
            && LiveIds(ws', closed) == LiveIds(ws, closed)
            && (dead in closed ==> Patience(ws', lap', dead, L) <= Patience(ws, lap, dead, L))
    decreases credit
  {
    lap' := lap;
    if credit != 0 && ws != [] {
      var rest, at, mid := SweepOne(ws, cursor, closed, lap, L, credit, dead);
      lap' := SweepKeepsLap(rest, at, closed, mid, L, credit - 1, dead);
    }
  }

  lemma {:induction false} RegsBounded(ws: seq<Waiter>, at: nat, closed: set<Id>, lap: Lap, L: nat, credit: nat)
    requires credit <= SWEEP_BUDGET && LapOk(ws, at, closed, lap, L, credit)
    ensures lap.regs <= LapLength(L)
  {
  }

  ghost predicate Bounded(s: State, lap: Lap, L: nat) {
    Valid(s) && LapOk(s.waiters, s.cursor, s.closed, lap, L, SWEEP_BUDGET)
  }

  predicate Registers(s: State, step: Step) {
    step.Watch? && FirstMatch(s.published, step.unusable).None?
  }

  function LapAfterPush(ws: seq<Waiter>, lap: Lap, id: Id): Lap {
    if ws == [] then Lap({id}, 0, 1) else Lap(lap.touched + {id}, lap.regs + 1, lap.start)
  }

  lemma {:induction false} PushKeepsDistinct(ws: seq<Waiter>, me: Waiter)
    requires Distinct(ws) && forall j | 0 <= j < |ws| :: ws[j].id != me.id
    ensures Distinct(ws + [me])
  {
  }

  lemma {:induction false} PushStartsLap(cursor: nat, closed: set<Id>, L: nat, me: Waiter)
    requires Live(me, closed) && |LiveIds([me], closed)| <= L
    ensures LapOk([me], cursor, closed, Lap({me.id}, 0, 1), L, SWEEP_BUDGET)
  {
    assert me in [me];
    assert LiveIds([me], closed) == {me.id};
  }

  /** The swept vector takes in the new reader, which repays one unit of credit. */
  lemma {:induction false} PushKeepsLap(ws: seq<Waiter>, cursor: nat, closed: set<Id>, lap: Lap, L: nat, me: Waiter)
    requires ws != [] ==> LapOk(ws, cursor, closed, lap, L, 0)
    requires (forall j | 0 <= j < |ws| :: ws[j].id != me.id) && Live(me, closed)
    requires |LiveIds(ws + [me], closed)| <= L
    ensures LapOk(ws + [me], cursor, closed, LapAfterPush(ws, lap, me.id), L, SWEEP_BUDGET)
  {
    if ws == [] {
      assert ws + [me] == [me];
      PushStartsLap(cursor, closed, L, me);
    } else {
      PushKeepsDistinct(ws, me);
      PushAddsLiveId(ws, closed, me);
      TouchedGrows(lap.touched, me.id);
    }
  }

  lemma {:induction false} PushAddsLiveId(ws: seq<Waiter>, closed: set<Id>, me: Waiter)
    requires Live(me, closed)
    ensures LiveIds(ws + [me], closed) == LiveIds(ws, closed) + {me.id}
  {
    assert me in ws + [me];
  }

  lemma {:induction false} TouchedGrows(touched: set<Id>, id: Id)
    ensures |touched + {id}| <= |touched| + 1
  {
    if id in touched { assert touched + {id} == touched; }
  }

  lemma {:induction false} PushCostsPatience(ws: seq<Waiter>, lap: Lap, L: nat, me: Waiter, dead: Id)
    requires dead != me.id
    ensures Listed(ws + [me], dead) <==> Listed(ws, dead)
    ensures Listed(ws, dead) ==>
              Patience(ws + [me], LapAfterPush(ws, lap, me.id), dead, L) == Patience(ws, lap, dead, L) - 1
  {
    var ws' := ws + [me];
    if Listed(ws', dead) {
      var i :| 0 <= i < |ws'| && ws'[i].id == dead;
      assert ws[i].id == dead;
    }
    if Listed(ws, dead) {
      var i :| 0 <= i < |ws| && ws[i].id == dead;
      assert ws'[i].id == dead;
    }
  }

  lemma {:induction false} WatchKeepsLap(
      s: State, unusable: seq<UnusableFill>, lap: Lap, L: nat, dead: Id) returns (lap': Lap)
    requires Bounded(s, lap, L) && Registers(s, Watch(unusable))
    requires |LiveIds(s.waiters, s.closed)| <= L
    requires var t := WatchSpec(s, unusable); |LiveIds(t.waiters, t.closed)| <= L
    ensures Bounded(WatchSpec(s, unusable), lap', L)
    ensures var p := Patience(s.waiters, lap, dead, L);
            var q := Patience(WatchSpec(s, unusable).waiters, lap', dead, L);
            dead in s.closed ==> q <= p && (Listed(s.waiters, dead) ==> q < p)
  {
    WatchKeepsValid(s, unusable);
    var (ws, cursor) := Sweep(s.waiters, s.cursor, s.closed, SWEEP_BUDGET);
    var mid := SweepKeepsLap(s.waiters, s.cursor, s.closed, lap, L, SWEEP_BUDGET, dead);
    SweepKeepsLive(s.waiters, s.cursor, s.closed, SWEEP_BUDGET);
    forall j | 0 <= j < |ws| ensures ws[j].id != s.nextId {
      assert ws[j] in ws;
      assert WaiterOk(s, ws[j]);
    }
    var me := Waiter(s.nextId, unusable);
    lap' := LapAfterPush(ws, mid, me.id);
    PushKeepsLap(ws, cursor, s.closed, mid, L, me);
    if dead in s.closed { PushCostsPatience(ws, mid, L, me, dead); }
    LapOkBounds(s.waiters, s.cursor, s.closed, lap, L);
  }

  /** A publication leaves only live readers, wherever the cursor stands. */
  lemma {:induction false} PublishKeepsLap(s: State, tokens: seq<Token>, L: nat) returns (lap: Lap)
    requires Valid(s) && |LiveIds(PublishSpec(s, tokens).waiters, s.closed)| <= L
    ensures Bounded(PublishSpec(s, tokens), lap, L)
    ensures forall dead | dead in s.closed :: !Listed(PublishSpec(s, tokens).waiters, dead)
  {
    PublishKeepsValid(s, tokens);
    PublishTellsExactlyTheMatching(s, tokens);
    var ws := PublishSpec(s, tokens).waiters;
    var live := LiveIds(ws, s.closed);
    forall j | 0 <= j < |ws| ensures ws[j].id in live && ws[j].id !in s.closed { assert ws[j] in ws; }
    DistinctBound(ws, live);
    lap := Lap(live, 0, |ws| - Min(s.cursor, |ws|));
  }

  lemma {:induction false} StepKeepsLap(s: State, step: Step, lap: Lap, L: nat, dead: Id) returns (lap': Lap)
    requires Bounded(s, lap, L) && Enabled(s, step)
    requires |LiveIds(s.waiters, s.closed)| <= L
    requires var t := Next(s, step); |LiveIds(t.waiters, t.closed)| <= L
    ensures Bounded(Next(s, step), lap', L)
    ensures var p := Patience(s.waiters, lap, dead, L);
            var q := Patience(Next(s, step).waiters, lap', dead, L);
            dead in s.closed ==> q <= p && (Registers(s, step) && Listed(s.waiters, dead) ==> q < p)
  {
    lap' := lap;
    LapOkBounds(s.waiters, s.cursor, s.closed, lap, L);
    match step
    case Depart(id) =>
      StepKeepsValid(s, step);
      assert LiveIds(s.waiters, s.closed + {id}) <= LiveIds(s.waiters, s.closed);
    case Publish(tokens) =>
      if Next(s, step) != s { lap' := PublishKeepsLap(s, tokens, L); }
    case Watch(unusable) =>
      if Registers(s, step) { lap' := WatchKeepsLap(s, unusable, lap, L, dead); }
  }

  // ----- Whole runs -----

  /** The run never has more than `L` live readers registered. */
  ghost predicate LiveAtMost(s: State, steps: seq<Step>, L: nat)
    decreases |steps|
  {
    && |LiveIds(s.waiters, s.closed)| <= L
    && (steps != [] && Enabled(s, steps[0]) ==> LiveAtMost(Next(s, steps[0]), steps[1..], L))
  }

  ghost function Registrations(s: State, steps: seq<Step>): nat
    decreases |steps|
  {
    if steps == [] || !Enabled(s, steps[0]) then 0
    else (if Registers(s, steps[0]) then 1 else 0) + Registrations(Next(s, steps[0]), steps[1..])
  }

  lemma {:induction false} RunsKeepLap(
      s: State, steps: seq<Step>, t: State, lap: Lap, L: nat, dead: Id) returns (lap': Lap)
    requires Runs(s, steps, t) && LiveAtMost(s, steps, L)
    requires Bounded(s, lap, L)
    ensures Bounded(t, lap', L)
    ensures dead in s.closed && Listed(t.waiters, dead) ==>
              Patience(t.waiters, lap', dead, L) + Registrations(s, steps) <= Patience(s.waiters, lap, dead, L)
    decreases |steps|
  {
    lap' := lap;
    if steps != [] {
      var u := Next(s, steps[0]);
      var mid := StepKeepsLap(s, steps[0], lap, L, dead);
      lap' := RunsKeepLap(u, steps[1..], t, mid, L, dead);
      LapOkBounds(t.waiters, t.cursor, t.closed, lap', L);
    }
  }

  /** However many readers came and went, the registry stays linear in the number live at once. */
  lemma {:induction false} RegistryStaysSmall(steps: seq<Step>, t: State, L: nat)
    requires Runs(INIT, steps, t) && LiveAtMost(INIT, steps, L)
    ensures |t.waiters| <= RegistryBound(L) <= 4 * L / 3 + 3
  {
    assert LiveIds([], {}) == {};
    var lap := RunsKeepLap(INIT, steps, t, Lap({}, 0, 0), L, 0);
    LapOkBounds(t.waiters, t.cursor, t.closed, lap, L);
  }

  /** A departed reader's entry is gone after at most `L / 3 + 6` further registrations. */
  lemma {:induction false} DepartedIsReclaimed(
      before: seq<Step>, s: State, after: seq<Step>, t: State, L: nat, dead: Id)
    requires Runs(INIT, before, s) && LiveAtMost(INIT, before, L)
    requires Runs(s, after, t) && LiveAtMost(s, after, L)
    requires dead in s.closed && Registrations(s, after) >= ReclaimBound(L)
    ensures !Listed(t.waiters, dead) && ReclaimBound(L) <= L / 3 + 6
  {
    assert LiveIds([], {}) == {};
    var lap := RunsKeepLap(INIT, before, s, Lap({}, 0, 0), L, dead);
    var lap' := RunsKeepLap(s, after, t, lap, L, dead);
    LapOkBounds(t.waiters, t.cursor, t.closed, lap', L);
  }
}
