/**
 A header keeps two multimaps in step: the values, and the names as they were spelled. Both
 are the header map of the http library, of which only this is taken: keys stay where they
 were first put, values of a key stay in order behind it, removing a key moves the last key
 into its place, and whether there is room depends on the keys and on how many values they have.
 */
module CaseMap {
  import opened Basics

  type Name = seq<Byte>
  type Key = seq<Byte>

  datatype Bucket<V> = Bucket(key: Key, values: seq<V>)

  type HMap<V> = seq<Bucket<V>>

  // ----- The multimap -----

  function Find<V>(m: HMap<V>, key: Key): (i: nat)
    ensures i <= |m| && (i < |m| ==> m[i].key == key)
    ensures forall k :: 0 <= k < i ==> m[k].key != key
  {
    if m == [] || m[0].key == key then 0 else 1 + Find(m[1..], key)
  }

  function Append<V>(m: HMap<V>, key: Key, v: V): HMap<V> {
    var i := Find(m, key);
    if i < |m| then m[i := Bucket(key, m[i].values + [v])] else m + [Bucket(key, [v])]
  }

  function Insert<V>(m: HMap<V>, key: Key, v: V): HMap<V> {
    var i := Find(m, key);
    if i < |m| then m[i := Bucket(key, [v])] else m + [Bucket(key, [v])]
  }

  function Remove<V>(m: HMap<V>, key: Key): HMap<V> {
    var i := Find(m, key);
    if i == |m| then m
    else if i == |m| - 1 then m[..i]
    else m[i := m[|m| - 1]][..|m| - 1]
  }

  // ----- The multimap as a caller sees it -----

  function ValuesOf<V>(m: HMap<V>, key: Key): seq<V> {
    if Find(m, key) < |m| then m[Find(m, key)].values else []
  }

  function KeysOf<V>(m: HMap<V>): seq<Key> { seq(|m|, i requires 0 <= i < |m| => m[i].key) }

  ghost predicate Distinct<V>(m: HMap<V>) { forall i, j :: 0 <= i < j < |m| ==> m[i].key != m[j].key }

  /** Where a key is if it is there at all. */
  lemma {:induction false} FoundAt<V>(m: HMap<V>, i: nat)
    requires Distinct(m) && i < |m|
    ensures Find(m, m[i].key) == i && ValuesOf(m, m[i].key) == m[i].values
  {
  }

  lemma {:induction false} NotFound<V>(m: HMap<V>, key: Key)
    requires forall i :: 0 <= i < |m| ==> m[i].key != key
    ensures Find(m, key) == |m| && ValuesOf(m, key) == []
  {
  }

  /** Appending puts the value behind the others of its key; inserting puts it in their place. */
  lemma {:induction false} PutOnValues<V>(m: HMap<V>, key: Key, v: V, other: Key)
    requires Distinct(m)
    ensures Distinct(Append(m, key, v)) && Distinct(Insert(m, key, v))
    ensures ValuesOf(Append(m, key, v), other) == ValuesOf(m, other) + if other == key then [v] else []
    ensures ValuesOf(Insert(m, key, v), other) == if other == key then [v] else ValuesOf(m, other)
  {
    PutAt(m, key, ValuesOf(m, key) + [v], other);
    PutAt(m, key, [v], other);
  }

  /** The key's values are set, in its place or in a new place at the end. */
  lemma {:induction false} PutAt<V>(m: HMap<V>, key: Key, values: seq<V>, other: Key)
    requires Distinct(m)
    ensures
      var i := Find(m, key);
      var t := if i < |m| then m[i := Bucket(key, values)] else m + [Bucket(key, values)];
      && Distinct(t) && ValuesOf(t, other) == if other == key then values else ValuesOf(m, other)
  {
    var i, j := Find(m, key), Find(m, other);
    var t := if i < |m| then m[i := Bucket(key, values)] else m + [Bucket(key, values)];
    assert Distinct(t);
    if other == key { FoundAt(t, i); }
    else if j < |m| { FoundAt(t, j); assert t[j] == m[j]; }
    else { NotFound(t, other); }
  }

  /** Keys stay where they are, and a new one comes last. */
  lemma {:induction false} PutOnKeys<V>(m: HMap<V>, key: Key, v: V)
    ensures KeysOf(Append(m, key, v)) == KeysOf(Insert(m, key, v))
    ensures KeysOf(Insert(m, key, v)) == KeysOf(m) + if Find(m, key) < |m| then [] else [key]
  {
  }

  /** The place before removal at `i` of what is at `k` afterwards. */
  function RemovedFrom(n: nat, i: nat, k: nat): int { if i < n && k == i then n - 1 else k }

  lemma {:induction false} RemoveMoves<V>(m: HMap<V>, key: Key, k: nat)
    requires k < |Remove(m, key)|
    ensures |Remove(m, key)| <= |m| && 0 <= RemovedFrom(|m|, Find(m, key), k) < |m|
    ensures Remove(m, key)[k] == m[RemovedFrom(|m|, Find(m, key), k)]
  {
  }

  lemma {:induction false} RemoveOnValues<V>(m: HMap<V>, key: Key, other: Key)
    requires Distinct(m)
    ensures Distinct(Remove(m, key))
    ensures ValuesOf(Remove(m, key), other) == if other == key then [] else ValuesOf(m, other)
  {
    var i, j, t := Find(m, key), Find(m, other), Remove(m, key);
    forall k | 0 <= k < |t| ensures t[k] == m[RemovedFrom(|m|, i, k)] { RemoveMoves(m, key, k); }
    if other == key || j == |m| { NotFound(t, other); }
    else if i < |m| && j == |m| - 1 { FoundAt(t, i); }
    else { FoundAt(t, j); }
  }

  /** Keys with the number of their values. */
  datatype Entry = Entry(key: Key, count: nat)

  function Layout<V>(m: HMap<V>): seq<Entry> {
    seq(|m|, i requires 0 <= i < |m| => Entry(m[i].key, |m[i].values|))
  }

  // ----- The order in which a map is read -----

  datatype Field<V> = Field(key: Key, value: V)

  function Fields<V>(key: Key, values: seq<V>): seq<Field<V>> {
    seq(|values|, i requires 0 <= i < |values| => Field(key, values[i]))
  }

  function Iter<V>(m: HMap<V>): seq<Field<V>> {
    if m == [] then [] else Iter(m[..|m| - 1]) + Fields(m[|m| - 1].key, m[|m| - 1].values)
  }

  // ----- Two maps seen as one -----

  /** A value together with the spelling of its name. */
  datatype Spelled<V> = Spelled(name: Name, value: V)

  ghost predicate Joins<V(!new)>(names: seq<Name>, values: seq<V>, both: seq<Spelled<V>>) {
    && |names| == |both| == |values|
    && forall i :: 0 <= i < |both| ==> both[i] == Spelled(names[i], values[i])
  }

  /** `both` is what one gets by reading the two maps side by side. */
  ghost predicate InStep<V(!new)>(names: HMap<Name>, values: HMap<V>, both: HMap<Spelled<V>>) {
    && |names| == |both| == |values|
    && forall i :: 0 <= i < |both| ==>
         && names[i].key == both[i].key == values[i].key
         && Joins(names[i].values, values[i].values, both[i].values)
  }

  lemma {:induction false} SameKeysSamePlace<V, W>(m: HMap<V>, w: HMap<W>, key: Key)
    requires |m| == |w| && forall i :: 0 <= i < |m| ==> m[i].key == w[i].key
    ensures Find(m, key) == Find(w, key)
  {
    var i, j := Find(m, key), Find(w, key);
    if i < |m| { assert w[i].key == key; }
    if j < |w| { assert m[j].key == key; }
  }

  lemma {:induction false} InStepFinds<V(!new)>(names: HMap<Name>, values: HMap<V>, both: HMap<Spelled<V>>, key: Key)
    requires InStep(names, values, both)
    ensures Find(names, key) == Find(values, key) == Find(both, key)
  {
    SameKeysSamePlace(names, both, key);
    SameKeysSamePlace(values, both, key);
  }

  lemma {:induction false} AppendKeepsStep<V(!new)>(
      names: HMap<Name>, values: HMap<V>, both: HMap<Spelled<V>>, key: Key, name: Name, v: V)
    requires InStep(names, values, both)
    ensures InStep(Append(names, key, name), Append(values, key, v), Append(both, key, Spelled(name, v)))
  {
    InStepFinds(names, values, both, key);
  }

  lemma {:induction false} InsertKeepsStep<V(!new)>(
      names: HMap<Name>, values: HMap<V>, both: HMap<Spelled<V>>, key: Key, name: Name, v: V)
    requires InStep(names, values, both)
    ensures InStep(Insert(names, key, name), Insert(values, key, v), Insert(both, key, Spelled(name, v)))
  {
    InStepFinds(names, values, both, key);
  }

  lemma {:induction false} RemoveKeepsStep<V(!new)>(
      names: HMap<Name>, values: HMap<V>, both: HMap<Spelled<V>>, key: Key)
    requires InStep(names, values, both)
    ensures InStep(Remove(names, key), Remove(values, key), Remove(both, key))
  {
    InStepFinds(names, values, both, key);
    var i := Find(both, key);
    var a, b, c := Remove(names, key), Remove(values, key), Remove(both, key);
    forall k | 0 <= k < |c|
      ensures a[k].key == c[k].key == b[k].key && Joins(a[k].values, b[k].values, c[k].values)
    {
      var from := RemovedFrom(|both|, i, k);
      RemoveMoves(names, key, k);
      RemoveMoves(values, key, k);
      RemoveMoves(both, key, k);
      assert names[from].key == both[from].key == values[from].key;
    }
  }

  lemma {:induction false} InStepSameLayout<V(!new)>(names: HMap<Name>, values: HMap<V>, both: HMap<Spelled<V>>)
    requires InStep(names, values, both)
    ensures Layout(names) == Layout(values) == Layout(both)
  {
  }

  // ----- Whole runs -----

  datatype Op<V> = AppendOp(name: Name, value: V) | InsertOp(name: Name, value: V) | RemoveOp(key: Key)

  datatype Header<V> = Header(names: HMap<Name>, values: HMap<V>)

  /** The key a spelling stands for, if it is a header name at all, and whether a layout has room for it. */
  datatype Library = Library(keyOf: Name -> Option<Key>, hasRoom: (seq<Entry>, Key) -> bool)

  /** Appending checks the names first; inserting does not check; removing goes by the values. */
  function Step<V>(lib: Library, h: Header<V>, op: Op<V>): Header<V> {
    match op
    case AppendOp(name, value) =>
      (match lib.keyOf(name)
       case None => h
       case Some(key) =>
         if !lib.hasRoom(Layout(h.names), key) then h
         else
           var names := Append(h.names, key, name);
           if !lib.hasRoom(Layout(h.values), key) then Header(names, h.values)
           else Header(names, Append(h.values, key, value)))
    case InsertOp(name, value) =>
      (match lib.keyOf(name)
       case None => h
       case Some(key) => Header(Insert(h.names, key, name), Insert(h.values, key, value)))
    case RemoveOp(key) =>
      if Find(h.values, key) == |h.values| then h else Header(Remove(h.names, key), Remove(h.values, key))
  }

  /** The same on one map that holds each value with its spelling. */
  function Reference<V>(lib: Library, both: HMap<Spelled<V>>, op: Op<V>): HMap<Spelled<V>> {
    match op
    case AppendOp(name, value) =>
      (match lib.keyOf(name)
       case None => both
       case Some(key) => if lib.hasRoom(Layout(both), key) then Append(both, key, Spelled(name, value)) else both)
    case InsertOp(name, value) =>
      (match lib.keyOf(name)
       case None => both
       case Some(key) => Insert(both, key, Spelled(name, value)))
    case RemoveOp(key) => Remove(both, key)
  }

  function Run<V>(lib: Library, h: Header<V>, ops: seq<Op<V>>): Header<V>
    decreases |ops|
  {
    if ops == [] then h else Run(lib, Step(lib, h, ops[0]), ops[1..])
  }

  function ReferenceRun<V>(lib: Library, both: HMap<Spelled<V>>, ops: seq<Op<V>>): HMap<Spelled<V>>
    decreases |ops|
  {
    if ops == [] then both else ReferenceRun(lib, Reference(lib, both, ops[0]), ops[1..])
  }

  lemma {:induction false} StepKeepsStep<V(!new)>(lib: Library, h: Header<V>, both: HMap<Spelled<V>>, op: Op<V>)
    requires InStep(h.names, h.values, both)
    ensures InStep(Step(lib, h, op).names, Step(lib, h, op).values, Reference(lib, both, op))
  {
    InStepSameLayout(h.names, h.values, both);
    match op
    case AppendOp(name, value) =>
      if lib.keyOf(name).Some? { AppendKeepsStep(h.names, h.values, both, lib.keyOf(name).value, name, value); }
    case InsertOp(name, value) =>
      if lib.keyOf(name).Some? { InsertKeepsStep(h.names, h.values, both, lib.keyOf(name).value, name, value); }
    case RemoveOp(key) =>
      InStepFinds(h.names, h.values, both, key);
      RemoveKeepsStep(h.names, h.values, both, key);
  }

  lemma {:induction false} RunKeepsStep<V(!new)>(lib: Library, h: Header<V>, both: HMap<Spelled<V>>, ops: seq<Op<V>>)
    requires InStep(h.names, h.values, both)
    ensures InStep(Run(lib, h, ops).names, Run(lib, h, ops).values, ReferenceRun(lib, both, ops))
    decreases |ops|
  {
    if ops != [] {
      StepKeepsStep(lib, h, both, ops[0]);
      RunKeepsStep(lib, Step(lib, h, ops[0]), Reference(lib, both, ops[0]), ops[1..]);
    }
  }

  /** What one operation does to the values of each key, with their spellings. */
  lemma {:induction false} StepOnValues<V>(lib: Library, both: HMap<Spelled<V>>, op: Op<V>, key: Key)
    requires Distinct(both)
    ensures Distinct(Reference(lib, both, op))
    ensures
      var was, now := ValuesOf(both, key), ValuesOf(Reference(lib, both, op), key);
      match op
      case AppendOp(name, value) =>
        if lib.keyOf(name) == Some(key) && lib.hasRoom(Layout(both), key) then now == was + [Spelled(name, value)]
        else now == was
      case InsertOp(name, value) =>
        if lib.keyOf(name) == Some(key) then now == [Spelled(name, value)] else now == was
      case RemoveOp(gone) => now == if key == gone then [] else was
  {
    match op
    case AppendOp(name, value) =>
      if lib.keyOf(name).Some? { PutOnValues(both, lib.keyOf(name).value, Spelled(name, value), key); }
    case InsertOp(name, value) =>
      if lib.keyOf(name).Some? { PutOnValues(both, lib.keyOf(name).value, Spelled(name, value), key); }
    case RemoveOp(gone) => RemoveOnValues(both, gone, key);
  }

  // ----- Writing the header -----

  lemma {:induction false} IterInStep<V(!new)>(names: HMap<Name>, values: HMap<V>, both: HMap<Spelled<V>>)
    requires InStep(names, values, both)
    ensures |Iter(names)| == |Iter(values)| == |Iter(both)|
    ensures forall i :: 0 <= i < |Iter(both)| ==>
              && Iter(names)[i].key == Iter(values)[i].key == Iter(both)[i].key
              && Iter(both)[i].value == Spelled(Iter(names)[i].value, Iter(values)[i].value)
    decreases |both|
  {
    if both != [] {
      var n := |both| - 1;
      IterInStep(names[..n], values[..n], both[..n]);
      assert Joins(names[n].values, values[n].values, both[n].values);
    }
  }

  /**
   After any run of operations from an empty header, reading the two maps side by side never
   meets two different keys, leaves nothing out, and yields every value with the spelling it
   was last given: exactly what the single map would give.
   */
  lemma {:induction false} WireWritesEveryValueAsSpelled<V(!new)>(lib: Library, ops: seq<Op<V>>)
    ensures
      var h := Run(lib, Header([], []), ops);
      var names, values, both := Iter(h.names), Iter(h.values), Iter(ReferenceRun(lib, [], ops));
      && |names| == |values| == |both|
      && forall i :: 0 <= i < |values| ==>
           names[i].key == values[i].key && both[i] == Field(values[i].key, Spelled(names[i].value, values[i].value))
  {
    var h := Run(lib, Header([], []), ops);
    RunKeepsStep(lib, Header([], []), [], ops);
    IterInStep(h.names, h.values, ReferenceRun(lib, [], ops));
  }

  // ----- The header object -----

  class CaseHeader {
    const lib: Library
    var names: HMap<Name>
    var values: HMap<seq<Byte>>
    ghost var both: HMap<Spelled<seq<Byte>>>

    ghost predicate Valid()
      reads this
    {
      InStep(names, values, both)
    }

    constructor (lib: Library)
      ensures Valid() && both == [] && this.lib == lib
    {
      this.lib := lib;
      names, values, both := [], [], [];
    }

    /** Fails, and changes nothing, on a bad name or when the maps are full. */
    method AppendHeader(name: Name, value: seq<Byte>) returns (ok: bool)
      requires Valid()
      modifies this
      ensures Valid() && both == Reference(lib, old(both), AppendOp(name, value))
      ensures !ok ==> names == old(names) && values == old(values)
      ensures ok <==> lib.keyOf(name).Some? && lib.hasRoom(Layout(old(both)), lib.keyOf(name).value)
    {
      StepKeepsStep(lib, Header(names, values), both, AppendOp(name, value));
      InStepSameLayout(names, values, both);
      if lib.keyOf(name).None? { return false; }
      var key := lib.keyOf(name).value;
      if !lib.hasRoom(Layout(names), key) { return false; }
      both := Append(both, key, Spelled(name, value));
      ok := lib.hasRoom(Layout(values), key);
      names := Append(names, key, name);
      if ok { values := Append(values, key, value); }
    }

    method InsertHeader(name: Name, value: seq<Byte>) returns (ok: bool)
      requires Valid()
      modifies this
      ensures Valid() && both == Reference(lib, old(both), InsertOp(name, value))
      ensures ok == lib.keyOf(name).Some?
    {
      StepKeepsStep(lib, Header(names, values), both, InsertOp(name, value));
      ok := lib.keyOf(name).Some?;
      if ok {
        var key := lib.keyOf(name).value;
        names, values, both :=
            Insert(names, key, name), Insert(values, key, value), Insert(both, key, Spelled(name, value));
      }
    }

    method RemoveHeader(key: Key) returns (removed: bool)
      requires Valid()
      modifies this
      ensures Valid() && both == Reference(lib, old(both), RemoveOp(key))
      ensures removed == (Find(old(both), key) < |old(both)|)
    {
      StepKeepsStep(lib, Header(names, values), both, RemoveOp(key));
      InStepFinds(names, values, both, key);
      removed := Find(values, key) < |values|;
      if removed { names, values, both := Remove(names, key), Remove(values, key), Remove(both, key); }
    }
  }
}
