/**
 What a writer publishes about its fill, and the registry of readers waiting to hear
 of it: readers register, leave without saying so, and are swept a few at a time by
 later registrations.

 A reader is known by the number of its one-shot channel. `closed` holds the channels
 whose receiver is gone and `told` what was sent on the others.
 */
module FillRegistry {
  import opened Basics

  type Token = nat
  type Id = nat

  datatype UnusableFill = UnusableFill(token: Token, reason: string)
  datatype Waiter = Waiter(id: Id, unusable: seq<UnusableFill>)

  datatype State = State(
    published: seq<Token>,
    publishedAny: bool,
    waiters: seq<Waiter>,
    cursor: nat,
    closed: set<Id>,
    told: map<Id, UnusableFill>,
    nextId: Id)

  const SWEEP_BUDGET := 8

  const INIT := State([], false, [], 0, {}, map[], 0)

  /** The first published fill this reader cannot use, in the reader's order. */
  function FirstMatch(published: seq<Token>, unusable: seq<UnusableFill>): Option<UnusableFill> {
    if unusable == [] then None
    else if unusable[0].token in published then Some(unusable[0])
    else FirstMatch(published, unusable[1..])
  }

  lemma {:induction false} FirstMatchIsFirst(published: seq<Token>, unusable: seq<UnusableFill>)
    ensures match FirstMatch(published, unusable)
            case None => forall i | 0 <= i < |unusable| :: unusable[i].token !in published
            case Some(m) => exists i :: && 0 <= i < |unusable| && unusable[i] == m && m.token in published
                                        && forall j | 0 <= j < i :: unusable[j].token !in published
  {
    if unusable != [] && unusable[0].token !in published {
      FirstMatchIsFirst(published, unusable[1..]);
      var tail := FirstMatch(published, unusable[1..]);
      if tail.Some? {
        var i :| 0 <= i < |unusable[1..]| && unusable[1..][i] == tail.value
                 && forall j | 0 <= j < i :: unusable[1..][j].token !in published;
        assert forall j | 0 <= j < i + 1 :: j == 0 || unusable[j] == unusable[1..][j - 1];
        assert unusable[i + 1] == tail.value;
      } else {
        assert forall j | 1 <= j < |unusable| :: unusable[j] == unusable[1..][j - 1];
      }
    }
  }

  // ----- The waiter vector -----

  predicate Live(w: Waiter, closed: set<Id>) { w.id !in closed }

  ghost predicate Distinct(ws: seq<Waiter>) {
    forall i, j | 0 <= i < j < |ws| :: ws[i].id != ws[j].id
  }

  ghost predicate Listed(ws: seq<Waiter>, id: Id) {
    exists i | 0 <= i < |ws| :: ws[i].id == id
  }

  ghost function LiveIds(ws: seq<Waiter>, closed: set<Id>): set<Id> {
    set w | w in ws && Live(w, closed) :: w.id
  }

  function SwapRemove(ws: seq<Waiter>, i: nat): seq<Waiter>
    requires i < |ws|
  {
    ws[i := ws[|ws| - 1]][..|ws| - 1]
  }

  lemma {:induction false} SwapRemoveDropsOne(ws: seq<Waiter>, i: nat)
    requires i < |ws| && Distinct(ws)
    ensures Distinct(SwapRemove(ws, i))
    ensures forall w :: w in SwapRemove(ws, i) <==> w in ws && w != ws[i]
    ensures forall j | 0 <= j < i :: SwapRemove(ws, i)[j] == ws[j]
  {
    var r := SwapRemove(ws, i);
    forall w | w in ws && w != ws[i] ensures w in r {
      var j :| 0 <= j < |ws| && ws[j] == w;
      if j == |ws| - 1 { assert r[i] == w; } else { assert r[j] == w; }
    }
  }

  /** The bounded sweep of one registration, from `cursor` on. */
  function Sweep(ws: seq<Waiter>, cursor: nat, closed: set<Id>, budget: nat): (r: (seq<Waiter>, nat))
    decreases budget
  {
    if budget == 0 || ws == [] then (ws, cursor)
    else
      var at := if cursor >= |ws| then 0 else cursor;
      if Live(ws[at], closed) then Sweep(ws, at + 1, closed, budget - 1)
      else Sweep(SwapRemove(ws, at), at, closed, budget - 1)
  }

  /** A sweep loses no live waiter and invents none. */
  lemma {:induction false} SweepKeepsLive(ws: seq<Waiter>, cursor: nat, closed: set<Id>, budget: nat)
    requires Distinct(ws)
    ensures var r := Sweep(ws, cursor, closed, budget).0;
            Distinct(r) && (forall w | w in r :: w in ws) && (forall w | w in ws && Live(w, closed) :: w in r)
    decreases budget
  {
    if budget != 0 && ws != [] {
      var at := if cursor >= |ws| then 0 else cursor;
      if Live(ws[at], closed) {
        SweepKeepsLive(ws, at + 1, closed, budget - 1);
      } else {
        SwapRemoveDropsOne(ws, at);
        SweepKeepsLive(SwapRemove(ws, at), at, closed, budget - 1);
      }
    }
  }

  /** The pass of a publication: closed waiters dropped, matched ones taken out to be told. */
  function Scan(
      ws: seq<Waiter>, i: nat, closed: set<Id>, tokens: seq<Token>): (r: (seq<Waiter>, seq<(Id, UnusableFill)>))
    decreases |ws| - i
  {
    if i >= |ws| then (ws, [])
    else if !Live(ws[i], closed) then Scan(SwapRemove(ws, i), i, closed, tokens)
    else
      match FirstMatch(tokens, ws[i].unusable)
      case None => Scan(ws, i + 1, closed, tokens)
      case Some(m) =>
        var (kept, woken) := Scan(SwapRemove(ws, i), i, closed, tokens);
        (kept, [(ws[i].id, m)] + woken)
  }

  /** Live and interested in none of `tokens`. */
  predicate Unmoved(w: Waiter, closed: set<Id>, tokens: seq<Token>) {
    Live(w, closed) && FirstMatch(tokens, w.unusable).None?
  }

  ghost predicate WokenBy(ws: seq<Waiter>, closed: set<Id>, tokens: seq<Token>, id: Id, m: UnusableFill) {
    exists w | w in ws :: w.id == id && Live(w, closed) && FirstMatch(tokens, w.unusable) == Some(m)
  }

  lemma {:induction false} ScanPartitions(ws: seq<Waiter>, i: nat, closed: set<Id>, tokens: seq<Token>)
    requires Distinct(ws) && i <= |ws|
    requires forall j | 0 <= j < i :: Unmoved(ws[j], closed, tokens)
    ensures var (kept, woken) := Scan(ws, i, closed, tokens);
            && Distinct(kept)
            && (forall w :: w in kept <==> w in ws && Unmoved(w, closed, tokens))
            && (forall p :: p in woken <==> WokenBy(ws, closed, tokens, p.0, p.1))
    decreases |ws| - i
  {
    if i < |ws| {
      var found := FirstMatch(tokens, ws[i].unusable);
      if Live(ws[i], closed) && found.None? {
        ScanPartitions(ws, i + 1, closed, tokens);
      } else {
        var rest := SwapRemove(ws, i);
        SwapRemoveDropsOne(ws, i);
        ScanPartitions(rest, i, closed, tokens);
        forall p: (Id, UnusableFill)
          ensures WokenBy(ws, closed, tokens, p.0, p.1) <==>
                  WokenBy(rest, closed, tokens, p.0, p.1) || (Live(ws[i], closed) && p == (ws[i].id, found.value))
        {
          if Live(ws[i], closed) { assert ws[i] in ws; }
        }
      }
    } else {
      assert forall w | w in ws :: exists j :: 0 <= j < |ws| && ws[j] == w;
    }
  }

  /** What the senders taken out of the registry deliver. */
  function Deliver(told: map<Id, UnusableFill>, woken: seq<(Id, UnusableFill)>): map<Id, UnusableFill>
    decreases |woken|
  {
    if woken == [] then told else Deliver(told[woken[0].0 := woken[0].1], woken[1..])
  }

  lemma {:induction false} DeliverAll(told: map<Id, UnusableFill>, woken: seq<(Id, UnusableFill)>)
    requires forall p, q | p in woken && q in woken && p.0 == q.0 :: p == q
    ensures forall id :: id in Deliver(told, woken) <==> id in told || exists p | p in woken :: p.0 == id
    ensures forall p | p in woken :: Deliver(told, woken)[p.0] == p.1
    ensures forall id | id in told && (forall p | p in woken :: p.0 != id) :: Deliver(told, woken)[id] == told[id]
    decreases |woken|
  {
    if woken != [] {
      var rest := woken[1..];
      assert forall p :: p in woken <==> p == woken[0] || p in rest;
      DeliverAll(told[woken[0].0 := woken[0].1], rest);
    }
  }

  // ----- The steps -----

  datatype Step = Watch(unusable: seq<UnusableFill>) | Publish(tokens: seq<Token>) | Depart(id: Id)

  /** Check what is published and, if none of it matters, register. */
  function WatchSpec(s: State, unusable: seq<UnusableFill>): State {
    if FirstMatch(s.published, unusable).Some? then s
    else
      var (ws, cursor) := Sweep(s.waiters, s.cursor, s.closed, SWEEP_BUDGET);
      s.(waiters := ws + [Waiter(s.nextId, unusable)], cursor := cursor, nextId := s.nextId + 1)
  }

  function PublishSpec(s: State, tokens: seq<Token>): State {
    var (kept, woken) := Scan(s.waiters, 0, s.closed, tokens);
    s.(published := tokens, publishedAny := tokens != [], waiters := kept, told := Deliver(s.told, woken))
  }

  /** The writer's entry point: replacing nothing with nothing skips the lock. */
  function PermitPublish(s: State, tokens: seq<Token>): State {
    if tokens == [] && !s.publishedAny then s else PublishSpec(s, tokens)
  }

  function DepartSpec(s: State, id: Id): State { s.(closed := s.closed + {id}) }

  predicate Enabled(s: State, step: Step) { step.Depart? ==> step.id < s.nextId }

  function Next(s: State, step: Step): State
    requires Enabled(s, step)
  {
    match step
    case Watch(unusable) => WatchSpec(s, unusable)
    case Publish(tokens) => PermitPublish(s, tokens)
    case Depart(id) => DepartSpec(s, id)
  }

  ghost predicate Runs(s: State, steps: seq<Step>, t: State)
    decreases |steps|
  {
    if steps == [] then s == t
    else Enabled(s, steps[0]) && Runs(Next(s, steps[0]), steps[1..], t)
  }

  ghost predicate WaiterOk(s: State, w: Waiter) {
    w.id < s.nextId && w.id !in s.told && FirstMatch(s.published, w.unusable).None?
  }

  ghost predicate Valid(s: State) {
    && Distinct(s.waiters)
    && (s.publishedAny <==> s.published != [])
    && (forall w | w in s.waiters :: WaiterOk(s, w))
    && (forall id | id in s.told :: id < s.nextId)
    && (forall id | id in s.closed :: id < s.nextId)
  }

  /** A publication tells exactly the live matching waiters, each once, with its first match. */
  lemma {:induction false} PublishTellsExactlyTheMatching(s: State, tokens: seq<Token>)
    requires Valid(s)
    ensures var t := PublishSpec(s, tokens);
            && (forall w :: w in t.waiters <==> w in s.waiters && Unmoved(w, s.closed, tokens))
            && (forall id | id in s.told :: id in t.told && t.told[id] == s.told[id])
            && (forall id | id in t.told && id !in s.told :: WokenBy(s.waiters, s.closed, tokens, id, t.told[id]))
            && (forall w | w in s.waiters && Live(w, s.closed) && FirstMatch(tokens, w.unusable).Some? ::
                  w.id in t.told && t.told[w.id] == FirstMatch(tokens, w.unusable).value)
            && Distinct(t.waiters)
  {
    ScanPartitions(s.waiters, 0, s.closed, tokens);
    var (kept, woken) := Scan(s.waiters, 0, s.closed, tokens);
    forall p, q | p in woken && q in woken && p.0 == q.0 ensures p == q {
      var w :| w in s.waiters && w.id == p.0 && FirstMatch(tokens, w.unusable) == Some(p.1);
      var v :| v in s.waiters && v.id == q.0 && FirstMatch(tokens, v.unusable) == Some(q.1);
      DistinctIds(s.waiters, w, v);
    }
    DeliverAll(s.told, woken);
    forall p | p in woken ensures p.0 !in s.told {
      var w :| w in s.waiters && w.id == p.0 && FirstMatch(tokens, w.unusable) == Some(p.1);
      assert WaiterOk(s, w);
    }
    forall w | w in s.waiters && Live(w, s.closed) && FirstMatch(tokens, w.unusable).Some?
      ensures (w.id, FirstMatch(tokens, w.unusable).value) in woken
    {
      assert WokenBy(s.waiters, s.closed, tokens, w.id, FirstMatch(tokens, w.unusable).value);
    }
  }

  lemma {:induction false} DistinctIds(ws: seq<Waiter>, w: Waiter, v: Waiter)
    requires Distinct(ws) && w in ws && v in ws && w.id == v.id
    ensures w == v
  {
    var i :| 0 <= i < |ws| && ws[i] == w;
    var j :| 0 <= j < |ws| && ws[j] == v;
  }

  lemma {:induction false} PublishKeepsValid(s: State, tokens: seq<Token>)
    requires Valid(s)
    ensures Valid(PublishSpec(s, tokens))
  {
    PublishTellsExactlyTheMatching(s, tokens);
    var t := PublishSpec(s, tokens);
    forall w | w in t.waiters ensures WaiterOk(t, w) {
      assert WaiterOk(s, w);
      if w.id in t.told {
        var v :| v in s.waiters && v.id == w.id && FirstMatch(tokens, v.unusable) == Some(t.told[w.id]);
        DistinctIds(s.waiters, w, v);
      }
    }
    forall id | id in t.told ensures id < t.nextId {
      if id !in s.told {
        var w :| w in s.waiters && w.id == id && FirstMatch(tokens, w.unusable) == Some(t.told[id]);
        assert WaiterOk(s, w);
      }
    }
  }

  lemma {:induction false} WatchKeepsValid(s: State, unusable: seq<UnusableFill>)
    requires Valid(s)
    ensures Valid(WatchSpec(s, unusable))
  {
    SweepKeepsLive(s.waiters, s.cursor, s.closed, SWEEP_BUDGET);
    var t := WatchSpec(s, unusable);
    if FirstMatch(s.published, unusable).None? {
      var ws := Sweep(s.waiters, s.cursor, s.closed, SWEEP_BUDGET).0;
      forall w | w in ws ensures WaiterOk(s, w) {}
      forall i | 0 <= i < |ws| ensures ws[i].id < s.nextId { assert WaiterOk(s, ws[i]); }
      forall w | w in t.waiters ensures WaiterOk(t, w) {
        if w in ws { assert WaiterOk(s, w); }
      }
    }
  }

  lemma {:induction false} StepKeepsValid(s: State, step: Step)
    requires Valid(s) && Enabled(s, step)
    ensures Valid(Next(s, step))
  {
    match step
    case Depart(id) => assert forall w | w in s.waiters :: WaiterOk(s, w);
    case Publish(tokens) => PublishKeepsValid(s, tokens);
    case Watch(unusable) => WatchKeepsValid(s, unusable);
  }

  /** The lock-free skip changes nothing a reader or a later step can see. */
  lemma {:induction false} SkipIsEquivalent(s: State)
    requires Valid(s) && !s.publishedAny
    ensures var full := PublishSpec(s, []);
            && PermitPublish(s, []) == s
            && full.published == s.published && full.publishedAny == s.publishedAny && full.told == s.told
            && (forall w | Live(w, s.closed) :: w in full.waiters <==> w in s.waiters)
  {
    var full := PublishSpec(s, []);
    PublishTellsExactlyTheMatching(s, []);
    forall w | w in s.waiters ensures FirstMatch([], w.unusable).None? { FirstMatchIsFirst([], w.unusable); }
    assert full.told.Keys == s.told.Keys;
  }

  // ----- The registry is invisible to a reader -----

  datatype Fate = Pending | Told(fill: UnusableFill) | Gone

  /** What a reader registered for `unusable` should see, from the history alone. */
  function FateOf(fate: Fate, id: Id, unusable: seq<UnusableFill>, steps: seq<Step>): Fate
    decreases |steps|
  {
    if steps == [] then fate
    else
      var now :=
        if !fate.Pending? then fate
        else
          match steps[0]
          case Watch(_) => Pending
          case Depart(d) => if d == id then Gone else Pending
          case Publish(tokens) =>
            (match FirstMatch(tokens, unusable) case Some(m) => Told(m) case None => Pending);
      FateOf(now, id, unusable, steps[1..])
  }

  /** What the channel of reader `id` shows. */
  function Observed(s: State, id: Id): Fate {
    if id in s.told then Told(s.told[id]) else if id in s.closed then Gone else Pending
  }

  ghost predicate Tracks(s: State, id: Id, unusable: seq<UnusableFill>) {
    && id < s.nextId
    && (Observed(s, id).Pending? ==> Waiter(id, unusable) in s.waiters)
    && (forall w | w in s.waiters && w.id == id :: w.unusable == unusable)
  }

  lemma {:induction false} StepTracks(s: State, step: Step, id: Id, unusable: seq<UnusableFill>)
    requires Valid(s) && Enabled(s, step) && Tracks(s, id, unusable)
    ensures Tracks(Next(s, step), id, unusable)
    ensures Observed(Next(s, step), id) == FateOf(Observed(s, id), id, unusable, [step])
  {
    var me := Waiter(id, unusable);
    match step
    case Depart(_) =>
    case Watch(other) =>
      SweepKeepsLive(s.waiters, s.cursor, s.closed, SWEEP_BUDGET);
    case Publish(tokens) =>
      if tokens == [] && !s.publishedAny {
        FirstMatchIsFirst([], unusable);
      } else {
        PublishTellsExactlyTheMatching(s, tokens);
        var t := PublishSpec(s, tokens);
        if me in s.waiters { assert WaiterOk(s, me); }
        if id in t.told && id !in s.told {
          var w :|
            && w in s.waiters && w.id == id && Live(w, s.closed)
            && FirstMatch(tokens, w.unusable) == Some(t.told[id]);
        }
      }
  }

  /**
   No publication is lost and none is repeated: whatever else happens in the registry,
   a reader is told the first match of the first matching publication after it
   registered, unless it left first; until then its sender stays in the registry.
   */
  lemma {:induction false} ReaderSeesItsHistory(
      s: State, steps: seq<Step>, t: State, id: Id, unusable: seq<UnusableFill>)
    requires Valid(s) && Runs(s, steps, t) && Tracks(s, id, unusable)
    ensures Observed(t, id) == FateOf(Observed(s, id), id, unusable, steps)
    ensures Observed(t, id).Pending? ==> Waiter(id, unusable) in t.waiters
    ensures Valid(t)
    decreases |steps|
  {
    if steps != [] {
      StepTracks(s, steps[0], id, unusable);
      StepKeepsValid(s, steps[0]);
      ReaderSeesItsHistory(Next(s, steps[0]), steps[1..], t, id, unusable);
    }
  }

  function LastPublished(published: seq<Token>, steps: seq<Step>): seq<Token>
    decreases |steps|
  {
    if steps == [] then published
    else LastPublished(if steps[0].Publish? then steps[0].tokens else published, steps[1..])
  }

  lemma {:induction false} RunsKeepPublished(s: State, steps: seq<Step>, t: State)
    requires Valid(s) && Runs(s, steps, t)
    ensures Valid(t) && t.published == LastPublished(s.published, steps)
    decreases |steps|
  {
    if steps != [] {
      StepKeepsValid(s, steps[0]);
      RunsKeepPublished(Next(s, steps[0]), steps[1..], t);
    }
  }

  /** From arrival on: the latest publication decides at once, and otherwise the later ones do. */
  lemma {:induction false} ReaderLearnsEveryPublication(
      before: seq<Step>, unusable: seq<UnusableFill>, after: seq<Step>, s: State, t: State)
    requires Runs(INIT, before, s) && Runs(WatchSpec(s, unusable), after, t)
    ensures FirstMatch(s.published, unusable) == FirstMatch(LastPublished([], before), unusable)
    ensures FirstMatch(LastPublished([], before), unusable).Some? ==> WatchSpec(s, unusable) == s
    ensures FirstMatch(LastPublished([], before), unusable).None? ==>
              Observed(t, s.nextId) == FateOf(Pending, s.nextId, unusable, after)
  {
    RunsKeepPublished(INIT, before, s);
    if FirstMatch(s.published, unusable).None? {
      StepKeepsValid(s, Watch(unusable));
      var u := WatchSpec(s, unusable);
      SweepKeepsLive(s.waiters, s.cursor, s.closed, SWEEP_BUDGET);
      assert u.waiters[|u.waiters| - 1] == Waiter(s.nextId, unusable);
      assert forall w | w in s.waiters :: WaiterOk(s, w);
      ReaderSeesItsHistory(u, after, t, s.nextId, unusable);
    }
  }

  // ----- The lock core's registry -----

  lemma {:induction false} RegisteredIsTracked(s: State, unusable: seq<UnusableFill>)
    requires Valid(s) && FirstMatch(s.published, unusable).None?
    ensures
      var t := WatchSpec(s, unusable);
      Observed(t, s.nextId).Pending? && Tracks(t, s.nextId, unusable)
  {
    var t := WatchSpec(s, unusable);
    assert t.waiters[|t.waiters| - 1] == Waiter(s.nextId, unusable);
    SweepKeepsLive(s.waiters, s.cursor, s.closed, SWEEP_BUDGET);
    assert forall w | w in s.waiters :: WaiterOk(s, w);
  }

  datatype Watching = Registered(id: Id) | AlreadyPublished(fill: UnusableFill)

  class LockCore {
    var published: seq<Token>
    var publishedAny: bool
    var waiters: seq<Waiter>
    var sweepCursor: nat
    var closed: set<Id>
    var told: map<Id, UnusableFill>
    var nextId: Id

    ghost function View(): State
      reads this
    {
      State(published, publishedAny, waiters, sweepCursor, closed, told, nextId)
    }

    constructor ()
      ensures View() == INIT
    {
      published, publishedAny, waiters, sweepCursor := [], false, [], 0;
      closed, told, nextId := {}, map[], 0;
    }

    /** Drop a bounded number of closed waiters, going on where the last sweep stopped. */
    method SweepSome()
      modifies this`waiters, this`sweepCursor
      ensures (waiters, sweepCursor) == Sweep(old(waiters), old(sweepCursor), closed, SWEEP_BUDGET)
    {
      var budget := SWEEP_BUDGET;
      while budget > 0 && waiters != []
        invariant budget >= 0
        invariant Sweep(waiters, sweepCursor, closed, budget) ==
                Sweep(old(waiters), old(sweepCursor), closed, SWEEP_BUDGET)
      {
        if sweepCursor >= |waiters| {
          sweepCursor := 0;
        }
        var at := sweepCursor;
        if waiters[at].id in closed {
          waiters := SwapRemove(waiters, at);
        } else {
          sweepCursor := sweepCursor + 1;
        }
        budget := budget - 1;
      }
    }

    method WatchFill(unusable: seq<UnusableFill>) returns (watching: Watching)
      requires Valid(View())
      modifies this
      ensures Valid(View()) && View() == WatchSpec(old(View()), unusable)
      ensures match watching
              case AlreadyPublished(m) => FirstMatch(published, unusable) == Some(m) && View() == old(View())
              case Registered(id) => Observed(View(), id).Pending? && Tracks(View(), id, unusable)
    {
      StepKeepsValid(View(), Watch(unusable));
      var already := FirstMatch(published, unusable);
      if already.Some? {
        return AlreadyPublished(already.value);
      }
      RegisteredIsTracked(View(), unusable);
      SweepSome();
      var id := nextId;
      nextId := nextId + 1;
      waiters := waiters + [Waiter(id, unusable)];
      watching := Watching.Registered(id);
    }

    /** Take the closed and the matching waiters out, the latter to be told. */
    method TakeMatching(tokens: seq<Token>) returns (woken: seq<(Id, UnusableFill)>)
      modifies this`waiters
      ensures (waiters, woken) == Scan(old(waiters), 0, closed, tokens)
    {
      woken := [];
      var i := 0;
      while i < |waiters|
        invariant 0 <= i <= |waiters|
        invariant Scan(waiters, i, closed, tokens).0 == Scan(old(waiters), 0, closed, tokens).0
        invariant woken + Scan(waiters, i, closed, tokens).1 == Scan(old(waiters), 0, closed, tokens).1
        decreases |waiters| - i
      {
        ghost var rest := Scan(waiters, i, closed, tokens).1;
        if waiters[i].id in closed {
          waiters := SwapRemove(waiters, i);
        } else {
          match FirstMatch(tokens, waiters[i].unusable)
          case Some(m) =>
            woken := woken + [(waiters[i].id, m)];
            waiters := SwapRemove(waiters, i);
            assert rest == [woken[|woken| - 1]] + Scan(waiters, i, closed, tokens).1;
          case None => i := i + 1;
        }
      }
      assert woken + [] == woken;
    }

    method Send(woken: seq<(Id, UnusableFill)>)
      modifies this`told
      ensures told == Deliver(old(told), woken)
    {
      var k := 0;
      while k < |woken|
        invariant 0 <= k <= |woken|
        invariant Deliver(told, woken[k..]) == Deliver(old(told), woken)
      {
        assert woken[k..][1..] == woken[k + 1..];
        told := told[woken[k].0 := woken[k].1];
        k := k + 1;
      }
      assert woken[k..] == [];
    }

    method PublishLocked(tokens: seq<Token>)
      modifies this
      ensures View() == PublishSpec(old(View()), tokens)
    {
      published := tokens;
      publishedAny := tokens != [];
      var woken := TakeMatching(tokens);
      // Sent after the lock is released.
      Send(woken);
    }

    method PublishTokens(tokens: seq<Token>)
      requires Valid(View())
      modifies this
      ensures Valid(View()) && View() == PermitPublish(old(View()), tokens)
    {
      StepKeepsValid(View(), Publish(tokens));
      if tokens == [] && !publishedAny {
        return;
      }
      PublishLocked(tokens);
    }

    method DropReceiver(id: Id)
      requires Valid(View()) && id < nextId
      modifies this
      ensures Valid(View()) && View() == DepartSpec(old(View()), id)
    {
      StepKeepsValid(View(), Depart(id));
      closed := closed + {id};
    }
  }
}
