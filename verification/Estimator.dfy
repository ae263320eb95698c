/**
 The count-min sketch, and the in-flight counters built on it: one row of counters for each
 hash function, every event added to one counter of each row. Counters are 64-bit and wrap
 around; the hash functions are part of the sketch's shape.
 */
module Estimator {
  type Key = nat

  datatype Event = Event(key: Key, value: int)

  const MODULUS := 0x1_0000_0000_0000_0000
  const MAX_COUNT := 0x7FFF_FFFF_FFFF_FFFF

  /** Two's complement: the one value in range that differs by a multiple of the modulus. */
  function Wrap(x: int): (r: int)
    ensures -MAX_COUNT - 1 <= r <= MAX_COUNT
    decreases if x < 0 then -2 * x else 2 * x + 1
  {
    if x > MAX_COUNT then Wrap(x - MODULUS)
    else if x < -MAX_COUNT - 1 then Wrap(x + MODULUS)
    else x
  }

  lemma {:induction false} WrapAdds(x: int, y: int)
    ensures Wrap(Wrap(x) + y) == Wrap(x + y)
    decreases if x < 0 then -2 * x else 2 * x + 1
  {
    if x > MAX_COUNT { WrapAdds(x - MODULUS, y); WrapRepeats(x - MODULUS + y); }
    else if x < -MAX_COUNT - 1 { WrapAdds(x + MODULUS, y); WrapRepeats(x + y); }
  }

  lemma {:induction false} WrapRepeats(x: int)
    ensures Wrap(x + MODULUS) == Wrap(x)
  {
  }

  datatype Shape = Shape(rows: nat, columns: nat, hash: (nat, Key) -> nat)

  predicate ShapeOk(shape: Shape) { shape.columns > 0 }

  /** The remainder `h % n`, by repeated subtraction. */
  function Remainder(h: nat, n: nat): (r: nat)
    requires n > 0
    ensures r < n
  {
    if h < n then h else Remainder(h - n, n)
  }

  lemma {:induction false} RemainderIsModulo(h: nat, n: nat)
    requires n > 0
    ensures Remainder(h, n) == h % n
    decreases h
  {
    if h >= n {
      RemainderIsModulo(h - n, n);
      ModuloRepeats(h - n, n, (h - n) / n, h / n);
    }
  }

  lemma {:induction false} ModuloRepeats(h: nat, n: nat, q: int, p: int)
    requires n > 0 && q == h / n && p == (h + n) / n
    ensures h % n == (h + n) % n
  {
    var r, t := h % n, (h + n) % n;
    assert q * n + r == h;
    assert p * n + t == h + n;
    NoMultipleBetween(n, p - q - 1, r - t) by { assert (p - q - 1) * n == p * n - q * n - n; }
  }

  lemma {:induction false} NoMultipleBetween(n: int, d: int, e: int)
    requires d * n == e && -n < e < n
    ensures e == 0
  {
    assert d * n == (d - 1) * n + n && d * n == (d + 1) * n - n;
    assert d >= 1 ==> (d - 1) * n >= 0;
    assert d <= -1 ==> (d + 1) * n <= 0;
  }

  function Column(shape: Shape, i: nat, key: Key): (c: nat)
    requires ShapeOk(shape)
    ensures c < shape.columns
  {
    Remainder(shape.hash(i, key), shape.columns)
  }

  /** Each row places a key by its own hash: two keys share a counter iff that hash puts them there. */
  lemma {:induction false} RowsPlaceByTheirOwnHash(shape: Shape, i: nat, a: Key, b: Key)
    requires ShapeOk(shape)
    ensures Column(shape, i, a) == shape.hash(i, a) % shape.columns
    ensures Column(shape, i, a) == Column(shape, i, b) <==>
            shape.hash(i, a) % shape.columns == shape.hash(i, b) % shape.columns
  {
    RemainderIsModulo(shape.hash(i, a), shape.columns);
    RemainderIsModulo(shape.hash(i, b), shape.columns);
  }

  // ----- What the events add up to -----

  /** The events of row `i` that fall into column `c`. */
  function Sum(shape: Shape, i: nat, log: seq<Event>, c: nat): int
    requires ShapeOk(shape)
  {
    if log == [] then 0
    else Sum(shape, i, log[..|log| - 1], c) + Share(shape, i, log[|log| - 1], c)
  }

  function Share(shape: Shape, i: nat, e: Event, c: nat): int
    requires ShapeOk(shape)
  {
    if Column(shape, i, e.key) == c then e.value else 0
  }

  function Count(log: seq<Event>, key: Key): int {
    if log == [] then 0
    else Count(log[..|log| - 1], key) + (if log[|log| - 1].key == key then log[|log| - 1].value else 0)
  }

  function Total(log: seq<Event>): int {
    if log == [] then 0 else Total(log[..|log| - 1]) + log[|log| - 1].value
  }

  predicate NonNegative(log: seq<Event>) { forall i :: 0 <= i < |log| ==> log[i].value >= 0 }

  lemma {:induction false} SumAppends(shape: Shape, i: nat, log: seq<Event>, e: Event, c: nat)
    requires ShapeOk(shape)
    ensures Sum(shape, i, log + [e], c) == Sum(shape, i, log, c) + Share(shape, i, e, c)
  {
    assert (log + [e])[..|log|] == log;
  }

  lemma {:induction false} SumConcats(shape: Shape, i: nat, a: seq<Event>, b: seq<Event>, c: nat)
    requires ShapeOk(shape)
    ensures Sum(shape, i, a + b, c) == Sum(shape, i, a, c) + Sum(shape, i, b, c)
    decreases |b|
  {
    if b == [] {
      assert a + b == a;
    } else {
      var b' := b[..|b| - 1];
      assert a + b == a + b' + [b[|b| - 1]];
      SumAppends(shape, i, a + b', b[|b| - 1], c);
      SumConcats(shape, i, a, b', c);
    }
  }

  lemma {:induction false} SumWithout(shape: Shape, i: nat, log: seq<Event>, k: nat, c: nat)
    requires ShapeOk(shape) && k < |log|
    ensures Sum(shape, i, Without(log, k), c) == Sum(shape, i, log, c) - Share(shape, i, log[k], c)
  {
    assert log == log[..k] + [log[k]] + log[k + 1..];
    SumConcats(shape, i, log[..k] + [log[k]], log[k + 1..], c);
    SumAppends(shape, i, log[..k], log[k], c);
    SumConcats(shape, i, log[..k], log[k + 1..], c);
  }

  function Without(log: seq<Event>, k: nat): seq<Event>
    requires k < |log|
  {
    log[..k] + log[k + 1..]
  }

  /** A key's column holds at least what the key has, and no column more than everything. */
  lemma {:induction false} SumBounds(shape: Shape, i: nat, log: seq<Event>, key: Key, c: nat)
    requires ShapeOk(shape) && NonNegative(log)
    ensures 0 <= Count(log, key) <= Total(log) && 0 <= Sum(shape, i, log, c) <= Total(log)
    ensures Count(log, key) <= Sum(shape, i, log, Column(shape, i, key))
    decreases |log|
  {
    if log != [] { SumBounds(shape, i, log[..|log| - 1], key, c); }
  }

  // ----- Rows -----

  /** The first `n` columns of a row together. */
  function RowSum(shape: Shape, i: nat, log: seq<Event>, n: nat): int
    requires ShapeOk(shape)
  {
    if n == 0 then 0 else RowSum(shape, i, log, n - 1) + Sum(shape, i, log, n - 1)
  }

  lemma {:induction false} RowSumAppends(shape: Shape, i: nat, log: seq<Event>, e: Event, n: nat)
    requires ShapeOk(shape)
    ensures RowSum(shape, i, log + [e], n) ==
            RowSum(shape, i, log, n) + if Column(shape, i, e.key) < n then e.value else 0
    decreases n
  {
    if n > 0 {
      SumAppends(shape, i, log, e, n - 1);
      RowSumAppends(shape, i, log, e, n - 1);
    }
  }

  lemma {:induction false} EmptyRow(shape: Shape, i: nat, n: nat)
    requires ShapeOk(shape)
    ensures RowSum(shape, i, [], n) == 0
    decreases n
  {
    if n > 0 { EmptyRow(shape, i, n - 1); }
  }

  /** Every row adds up to the same total. */
  lemma {:induction false} RowsAddUp(shape: Shape, i: nat, log: seq<Event>)
    requires ShapeOk(shape)
    ensures RowSum(shape, i, log, shape.columns) == Total(log)
    decreases |log|
  {
    if log == [] {
      EmptyRow(shape, i, shape.columns);
    } else {
      var last := log[|log| - 1];
      RowsAddUp(shape, i, log[..|log| - 1]);
      RowSumAppends(shape, i, log[..|log| - 1], last, shape.columns);
      assert log == log[..|log| - 1] + [last];
    }
  }

  // ----- The estimate -----

  /** The least of the key's counters in the first `rows` rows. */
  function Estimate(shape: Shape, log: seq<Event>, key: Key, rows: nat): int
    requires ShapeOk(shape)
  {
    if rows == 0 then MAX_COUNT
    else
      var rest := Estimate(shape, log, key, rows - 1);
      var own := Wrap(Sum(shape, rows - 1, log, Column(shape, rows - 1, key)));
      if own < rest then own else rest
  }

  /** None of the key's counters has passed the largest count. */
  predicate InRange(shape: Shape, log: seq<Event>, key: Key, rows: nat)
    requires ShapeOk(shape)
  {
    forall i | 0 <= i < rows :: Sum(shape, i, log, Column(shape, i, key)) <= MAX_COUNT
  }

  /** As long as no counter of the key overflows, the estimate lies between the true count and the total. */
  lemma {:induction false} EstimateIsNeverBelow(shape: Shape, log: seq<Event>, key: Key, rows: nat)
    requires ShapeOk(shape) && NonNegative(log) && InRange(shape, log, key, rows) && rows > 0
    ensures 0 <= Count(log, key) <= Estimate(shape, log, key, rows) <= Total(log)
    decreases rows
  {
    SumBounds(shape, rows - 1, log, key, Column(shape, rows - 1, key));
    if rows > 1 { EstimateIsNeverBelow(shape, log, key, rows - 1); }
  }

  lemma {:induction false} EstimateIsLeast(shape: Shape, log: seq<Event>, key: Key, rows: nat, i: nat)
    requires ShapeOk(shape) && i < rows
    ensures Estimate(shape, log, key, rows) <= Wrap(Sum(shape, i, log, Column(shape, i, key)))
    decreases rows
  {
    if i < rows - 1 { EstimateIsLeast(shape, log, key, rows - 1, i); }
  }

  /**
   Until a counter comes round again, the estimate is a bound iff none of the key's counters
   has passed the largest count, and negative as soon as one has.
   */
  lemma {:induction false} EstimateIsABoundIff(shape: Shape, log: seq<Event>, key: Key, rows: nat)
    requires ShapeOk(shape) && NonNegative(log) && Total(log) < MODULUS && rows > 0
    ensures Count(log, key) <= Estimate(shape, log, key, rows) <==> InRange(shape, log, key, rows)
    ensures Estimate(shape, log, key, rows) < 0 <==> !InRange(shape, log, key, rows)
  {
    SumBounds(shape, 0, log, key, 0);
    if InRange(shape, log, key, rows) {
      EstimateIsNeverBelow(shape, log, key, rows);
    } else {
      var i: nat :| i < rows && Sum(shape, i, log, Column(shape, i, key)) > MAX_COUNT;
      SumBounds(shape, i, log, key, Column(shape, i, key));
      EstimateIsLeast(shape, log, key, rows, i);
      OverflownIsNegative(Sum(shape, i, log, Column(shape, i, key)));
    }
  }

  lemma {:induction false} OverflownIsNegative(x: int)
    requires MAX_COUNT < x < MODULUS
    ensures Wrap(x) == x - MODULUS < 0
  {
  }

  /** No other key with anything to its name shares the key's column in this row. */
  predicate Alone(shape: Shape, i: nat, log: seq<Event>, key: Key)
    requires ShapeOk(shape)
  {
    forall k :: 0 <= k < |log| && log[k].key != key && Column(shape, i, log[k].key) == Column(shape, i, key) ==>
        log[k].value == 0
  }

  lemma {:induction false} AloneIffExact(shape: Shape, i: nat, log: seq<Event>, key: Key)
    requires ShapeOk(shape) && NonNegative(log)
    ensures Sum(shape, i, log, Column(shape, i, key)) == Count(log, key) <==> Alone(shape, i, log, key)
    decreases |log|
  {
    if log != [] {
      var front := log[..|log| - 1];
      AloneIffExact(shape, i, front, key);
      SumBounds(shape, i, front, key, 0);
      assert forall k :: 0 <= k < |front| ==> front[k] == log[k];
    }
  }

  /** The estimate is exact iff the key is alone in some row. */
  lemma {:induction false} EstimateIsExactIff(shape: Shape, log: seq<Event>, key: Key, rows: nat)
    requires ShapeOk(shape) && NonNegative(log) && InRange(shape, log, key, rows) && rows > 0
    ensures
      Estimate(shape, log, key, rows) == Count(log, key) <==> exists i :: 0 <= i < rows && Alone(shape, i, log, key)
    decreases rows
  {
    AloneIffExact(shape, rows - 1, log, key);
    SumBounds(shape, rows - 1, log, key, Column(shape, rows - 1, key));
    if rows > 1 {
      EstimateIsExactIff(shape, log, key, rows - 1);
      EstimateIsNeverBelow(shape, log, key, rows - 1);
    }
  }

  /** The least log that overflows: two events for one key. */
  lemma {:induction false} OverflowGoesNegative(shape: Shape, key: Key, rows: nat)
    requires ShapeOk(shape) && rows > 0
    ensures
      var log := [Event(key, MAX_COUNT), Event(key, 1)];
      !InRange(shape, log, key, rows) && Estimate(shape, log, key, rows) < 0
  {
    var a, b := Event(key, MAX_COUNT), Event(key, 1);
    SumAppends(shape, 0, [a], b, Column(shape, 0, key));
    SumAppends(shape, 0, [], a, Column(shape, 0, key));
    assert [a] + [b] == [a, b] && [] + [a] == [a];
    assert [a, b][..1] == [a] && [a][..0] == [];
    assert Total([a]) == MAX_COUNT;
    assert Total([a, b]) == MAX_COUNT + 1;
    EstimateIsABoundIff(shape, [a, b], key, rows);
  }

  lemma {:induction false} EmptyEstimate(shape: Shape, key: Key, rows: nat)
    requires ShapeOk(shape)
    ensures Estimate(shape, [], key, rows) == if rows == 0 then MAX_COUNT else 0
    decreases rows
  {
    if rows > 0 { EmptyEstimate(shape, key, rows - 1); }
  }

  // ----- Guards in flight -----

  /** The events the sketch was given, and the guards still alive. */
  datatype Flights = Flights(log: seq<Event>, live: seq<Event>)

  datatype Step = Incr(key: Key, value: int) | DropGuard(k: nat)

  predicate Enabled(s: Flights, step: Step) { step.DropGuard? ==> step.k < |s.live| }

  function Next(s: Flights, step: Step): Flights
    requires Enabled(s, step)
  {
    match step
    case Incr(key, value) => Flights(s.log + [Event(key, value)], s.live + [Event(key, value)])
    case DropGuard(k) => Flights(s.log + [Event(s.live[k].key, -s.live[k].value)], Without(s.live, k))
  }

  ghost predicate Runs(s: Flights, steps: seq<Step>, t: Flights)
    decreases |steps|
  {
    if steps == [] then s == t
    else Enabled(s, steps[0]) && Runs(Next(s, steps[0]), steps[1..], t)
  }

  lemma {:induction false} StepKeepsSum(shape: Shape, i: nat, s: Flights, step: Step, c: nat)
    requires ShapeOk(shape) && Enabled(s, step) && Sum(shape, i, s.log, c) == Sum(shape, i, s.live, c)
    ensures Sum(shape, i, Next(s, step).log, c) == Sum(shape, i, Next(s, step).live, c)
  {
    match step
    case Incr(key, value) =>
      SumAppends(shape, i, s.log, Event(key, value), c);
      SumAppends(shape, i, s.live, Event(key, value), c);
    case DropGuard(k) =>
      SumAppends(shape, i, s.log, Event(s.live[k].key, -s.live[k].value), c);
      SumWithout(shape, i, s.live, k, c);
  }

  /** In every run each counter is the sum of the live guards that hash to it, overflow or not. */
  lemma {:induction false} CountersAreTheLiveGuards(
      shape: Shape, i: nat, s: Flights, steps: seq<Step>, t: Flights, c: nat)
    requires ShapeOk(shape) && Runs(s, steps, t) && Sum(shape, i, s.log, c) == Sum(shape, i, s.live, c)
    ensures Wrap(Sum(shape, i, t.log, c)) == Wrap(Sum(shape, i, t.live, c))
    ensures t.live == [] ==> Wrap(Sum(shape, i, t.log, c)) == 0
    decreases |steps|
  {
    if steps != [] {
      StepKeepsSum(shape, i, s, steps[0], c);
      CountersAreTheLiveGuards(shape, i, Next(s, steps[0]), steps[1..], t, c);
    }
  }

  // ----- The counters themselves -----

  class Sketch {
    const shape: Shape
    const counters: array2<int>
    ghost var log: seq<Event>

    /** A row holds what the events add up to in it. */
    ghost predicate RowHolds(i: nat, log: seq<Event>)
      requires ShapeOk(shape) && i < counters.Length0 && counters.Length1 == shape.columns
      reads counters
    {
      forall c :: 0 <= c < shape.columns ==> counters[i, c] == Wrap(Sum(shape, i, log, c))
    }

    ghost predicate Fits() { ShapeOk(shape) && counters.Length0 == shape.rows && counters.Length1 == shape.columns }

    ghost predicate Valid()
      reads this, counters
    {
      Fits() && forall i :: 0 <= i < shape.rows ==> RowHolds(i, log)
    }

    constructor (shape: Shape)
      requires ShapeOk(shape)
      ensures Valid() && this.shape == shape && log == [] && fresh(counters)
    {
      this.shape := shape;
      counters := new int[shape.rows, shape.columns]((i, c) => 0);
      log := [];
    }

    /** The atomic addition to the key's counter in one row. */
    method Add(i: nat, key: Key, value: int, ghost before: seq<Event>) returns (current: int)
      requires Fits() && i < shape.rows && RowHolds(i, before)
      modifies counters
      ensures RowHolds(i, before + [Event(key, value)])
      ensures current == Wrap(Sum(shape, i, before + [Event(key, value)], Column(shape, i, key)))
      ensures forall r, c :: 0 <= r < shape.rows && 0 <= c < shape.columns && r != i ==>
              counters[r, c] == old(counters[r, c])
    {
      var column := Column(shape, i, key);
      WrapAdds(Sum(shape, i, before, column), value);
      forall c | 0 <= c < shape.columns
        ensures
          Sum(shape, i, before + [Event(key, value)], c) ==
          Sum(shape, i, before, c) + if c == column then value else 0
      {
        SumAppends(shape, i, before, Event(key, value), c);
      }
      counters[i, column] := Wrap(counters[i, column] + value);
      current := counters[i, column];
    }

    method Incr(key: Key, value: int) returns (estimate: int)
      requires Valid()
      modifies this, counters
      ensures Valid() && log == old(log) + [Event(key, value)]
      ensures estimate == Estimate(shape, log, key, shape.rows)
    {
      ghost var before := log;
      estimate := MAX_COUNT;
      log := log + [Event(key, value)];
      for i := 0 to shape.rows
        invariant log == before + [Event(key, value)]
        invariant forall r :: 0 <= r < i ==> RowHolds(r, log)
        invariant forall r :: i <= r < shape.rows ==> RowHolds(r, before)
        invariant estimate == Estimate(shape, log, key, i)
      {
        label L:
        var current := Add(i, key, value, before);
        forall r | 0 <= r < i ensures RowHolds(r, log) { assert old@L(RowHolds(r, log)); }
        forall r | i < r < shape.rows ensures RowHolds(r, before) { assert old@L(RowHolds(r, before)); }
        if current < estimate { estimate := current; }
      }
    }

    method Decr(key: Key, value: int)
      requires Valid()
      modifies this, counters
      ensures Valid() && log == old(log) + [Event(key, -value)]
    {
      ghost var before := log;
      log := log + [Event(key, -value)];
      for i := 0 to shape.rows
        invariant log == before + [Event(key, -value)]
        invariant forall r :: 0 <= r < i ==> RowHolds(r, log)
        invariant forall r :: i <= r < shape.rows ==> RowHolds(r, before)
      {
        label L:
        var _ := Add(i, key, -value, before);
        forall r | 0 <= r < i ensures RowHolds(r, log) { assert old@L(RowHolds(r, log)); }
        forall r | i < r < shape.rows ensures RowHolds(r, before) { assert old@L(RowHolds(r, before)); }
      }
    }

    method Get(key: Key) returns (estimate: int)
      requires Valid()
      ensures estimate == Estimate(shape, log, key, shape.rows)
    {
      estimate := MAX_COUNT;
      for i := 0 to shape.rows
        invariant estimate == Estimate(shape, log, key, i)
      {
        assert RowHolds(i, log);
        var current := counters[i, Column(shape, i, key)];
        if current < estimate { estimate := current; }
      }
    }

    method Reset()
      requires Valid()
      modifies this, counters
      ensures Valid() && log == []
    {
      log := [];
      for i := 0 to shape.rows
        invariant log == []
        invariant forall r, c :: 0 <= r < i && 0 <= c < shape.columns ==> counters[r, c] == 0
      {
        for j := 0 to shape.columns
          invariant log == []
          invariant forall r, c :: 0 <= r < i && 0 <= c < shape.columns ==> counters[r, c] == 0
          invariant forall c :: 0 <= c < j ==> counters[i, c] == 0
        {
          counters[i, j] := 0;
        }
      }
    }
  }

  /** The counters of actions in progress; `live` stands for the guards handed out and not yet dropped. */
  class Inflight {
    const sketch: Sketch
    var live: seq<Event>

    ghost predicate Valid()
      reads this, sketch, sketch.counters
    {
      && sketch.Valid()
      && forall i: nat, c: nat {:trigger Sum(sketch.shape, i, live, c)} ::
           Sum(sketch.shape, i, sketch.log, c) == Sum(sketch.shape, i, live, c)
    }

    constructor (shape: Shape)
      requires ShapeOk(shape)
      ensures Valid() && live == [] && fresh(sketch) && fresh(sketch.counters)
    {
      sketch := new Sketch(shape);
      live := [];
    }

    method Incr(key: Key, value: int) returns (estimate: int)
      requires Valid()
      modifies this, sketch, sketch.counters
      ensures Valid() && live == old(live) + [Event(key, value)]
      ensures estimate == Estimate(sketch.shape, sketch.log, key, sketch.shape.rows)
    {
      ghost var s := Flights(sketch.log, live);
      estimate := sketch.Incr(key, value);
      live := live + [Event(key, value)];
      forall i: nat, c: nat ensures Sum(sketch.shape, i, sketch.log, c) == Sum(sketch.shape, i, live, c) {
        assert Sum(sketch.shape, i, s.log, c) == Sum(sketch.shape, i, s.live, c);
        StepKeepsSum(sketch.shape, i, s, Step.Incr(key, value), c);
      }
    }

    method DropGuard(k: nat)
      requires Valid() && k < |live|
      modifies this, sketch, sketch.counters
      ensures Valid() && live == Without(old(live), k)
      ensures live == [] ==>
              forall i, c :: 0 <= i < sketch.counters.Length0 && 0 <= c < sketch.counters.Length1 ==>
                sketch.counters[i, c] == 0
    {
      ghost var s := Flights(sketch.log, live);
      sketch.Decr(live[k].key, live[k].value);
      live := live[..k] + live[k + 1..];
      forall i: nat, c: nat ensures Sum(sketch.shape, i, sketch.log, c) == Sum(sketch.shape, i, live, c) {
        assert Sum(sketch.shape, i, s.log, c) == Sum(sketch.shape, i, s.live, c);
        StepKeepsSum(sketch.shape, i, s, Step.DropGuard(k), c);
      }
      if live == [] {
        forall i, c | 0 <= i < sketch.counters.Length0 && 0 <= c < sketch.counters.Length1
            ensures sketch.counters[i, c] == 0 {
          assert sketch.RowHolds(i, sketch.log);
          assert Sum(sketch.shape, i, live, c) == 0;
        }
      }
    }
  }
}
