/**
 The variance key: named byte strings, written out in the order of their names with a zero
 byte after every name and every value, and hashed. The digest is an argument.
 */
module VarianceKey {
  import opened Basics

  type Bytes = seq<Byte>

  // ----- Byte order -----

  predicate Less(a: Bytes, b: Bytes)
    decreases |b|
  {
    b != [] && (a == [] || a[0] < b[0] || (a[0] == b[0] && Less(a[1..], b[1..])))
  }

  lemma {:induction false} LessIsTotal(a: Bytes, b: Bytes)
    ensures a != b ==> Less(a, b) || Less(b, a)
    ensures !(Less(a, b) && Less(b, a)) && !Less(a, a)
    decreases |a|
  {
    if a != [] {
      LessIsTotal(a[1..], a[1..]);
      if b != [] {
        LessIsTotal(a[1..], b[1..]);
        assert a == [a[0]] + a[1..] && b == [b[0]] + b[1..];
      }
    }
  }

  lemma {:induction false} LessIsTransitive(a: Bytes, b: Bytes, c: Bytes)
    requires Less(a, b) && Less(b, c)
    ensures Less(a, c)
    decreases |b|
  {
    if a != [] && a[0] == b[0] == c[0] { LessIsTransitive(a[1..], b[1..], c[1..]); }
  }

  // ----- The order in which a map is walked -----

  predicate Increasing(names: seq<Bytes>) { forall i, j :: 0 <= i < j < |names| ==> Less(names[i], names[j]) }

  ghost predicate Lists(names: seq<Bytes>, keys: set<Bytes>) {
    Increasing(names) && forall n :: n in names <==> n in keys
  }

  /** There is only one way to walk a set of names in order. */
  lemma {:induction false} ListingIsUnique(a: seq<Bytes>, b: seq<Bytes>, keys: set<Bytes>)
    requires Lists(a, keys) && Lists(b, keys)
    ensures a == b
    decreases |a|
  {
    assert b != [] ==> b[0] in a;
    if a != [] {
      var least := a[0];
      assert least in keys && b != [];
      assert b[0] in a && least in b;
      LessIsTotal(least, b[0]);
      var rest := keys - {least};
      TailLists(a, keys);
      TailLists(b, keys);
      ListingIsUnique(a[1..], b[1..], rest);
      assert a == [least] + a[1..] && b == [least] + b[1..];
    }
  }

  lemma {:induction false} TailLists(a: seq<Bytes>, keys: set<Bytes>)
    requires Lists(a, keys) && a != []
    ensures Lists(a[1..], keys - {a[0]})
  {
    forall n ensures n in a[1..] <==> n in keys - {a[0]} {
      if n in a[1..] {
        var k :| 0 <= k < |a[1..]| && a[1..][k] == n;
        LessIsTotal(a[0], a[k + 1]);
      } else if n in a {
        assert n == a[0];
      }
    }
  }

  // ----- The bytes -----

  datatype Entry = Entry(name: Bytes, value: Bytes)

  function Encode(entries: seq<Entry>): Bytes {
    if entries == [] then []
    else Encode(entries[..|entries| - 1]) + Written(entries[|entries| - 1])
  }

  function Written(e: Entry): Bytes { e.name + [0] + e.value + [0] }

  function EntriesOf(values: map<Bytes, Bytes>, names: seq<Bytes>): seq<Entry>
    requires forall n <- names :: n in values
  {
    seq(|names|, i requires 0 <= i < |names| => Entry(names[i], values[names[i]]))
  }

  predicate NoNul(s: Bytes) { 0 !in s }

  ghost predicate Plain(values: map<Bytes, Bytes>) { forall n <- values :: NoNul(n) && NoNul(values[n]) }

  lemma {:induction false} EncodeAppends(entries: seq<Entry>, e: Entry)
    ensures Encode(entries + [e]) == Encode(entries) + Written(e)
  {
    assert (entries + [e])[..|entries|] == entries;
  }

  lemma {:induction false} EncodeStarts(entries: seq<Entry>)
    requires entries != []
    ensures Encode(entries) == Written(entries[0]) + Encode(entries[1..])
    decreases |entries|
  {
    if |entries| > 1 {
      var front, last := entries[..|entries| - 1], entries[|entries| - 1];
      EncodeStarts(front);
      assert front[1..] + [last] == entries[1..];
      EncodeAppends(front[1..], last);
    } else {
      assert entries[..0] == [] && entries[1..] == [];
    }
  }

  /** Up to its first zero byte a string reads only one way. */
  lemma {:induction false} TokenIsUnique(a: Bytes, x: Bytes, b: Bytes, y: Bytes)
    requires NoNul(a) && NoNul(b) && a + [0] + x == b + [0] + y
    ensures a == b && x == y
  {
    var s, t := a + [0] + x, b + [0] + y;
    assert s[|a|] == 0 && t[|b|] == 0;
    assert forall k :: 0 <= k < |a| ==> s[k] == a[k] != 0;
    assert forall k :: 0 <= k < |b| ==> t[k] == b[k] != 0;
    assert a == s[..|a|] && b == t[..|b|];
    assert x == s[|a| + 1..] && y == t[|b| + 1..];
  }

  predicate PlainEntries(entries: seq<Entry>) {
    forall i :: 0 <= i < |entries| ==> NoNul(entries[i].name) && NoNul(entries[i].value)
  }

  lemma {:induction false} EncodingIsUnique(a: seq<Entry>, b: seq<Entry>)
    requires PlainEntries(a) && PlainEntries(b) && Encode(a) == Encode(b)
    ensures a == b
    decreases |a|
  {
    if a != [] { EncodeStarts(a); }
    if b != [] { EncodeStarts(b); }
    if a != [] && b != [] {
      EntryIsUnique(a[0], Encode(a[1..]), b[0], Encode(b[1..]));
      EncodingIsUnique(a[1..], b[1..]);
      assert a == [a[0]] + a[1..] && b == [b[0]] + b[1..];
    }
  }

  lemma {:induction false} EntryIsUnique(a: Entry, x: Bytes, b: Entry, y: Bytes)
    requires NoNul(a.name) && NoNul(a.value) && NoNul(b.name) && NoNul(b.value)
    requires Written(a) + x == Written(b) + y
    ensures a == b && x == y
  {
    assert Written(a) + x == a.name + [0] + (a.value + [0] + x);
    assert Written(b) + y == b.name + [0] + (b.value + [0] + y);
    TokenIsUnique(a.name, a.value + [0] + x, b.name, b.value + [0] + y);
    TokenIsUnique(a.value, x, b.value, y);
  }

  /** Maps without zero bytes are hashed from the same bytes only if they are the same map. */
  lemma {:induction false} EncodingTellsMapsApart(
      v: map<Bytes, Bytes>, vs: seq<Bytes>, w: map<Bytes, Bytes>, ws: seq<Bytes>)
    requires Plain(v) && Plain(w) && Lists(vs, v.Keys) && Lists(ws, w.Keys)
    ensures Encode(EntriesOf(v, vs)) == Encode(EntriesOf(w, ws)) <==> v == w
  {
    var a, b := EntriesOf(v, vs), EntriesOf(w, ws);
    if v == w {
      ListingIsUnique(vs, ws, v.Keys);
    }
    if Encode(a) == Encode(b) {
      EncodingIsUnique(a, b);
      EntriesGiveTheMap(v, vs, w, ws);
    }
  }

  // ----- Which maps have their bytes to themselves -----

  /** No other map is hashed from these bytes. */
  ghost predicate OwnsItsBytes(v: map<Bytes, Bytes>, vs: seq<Bytes>)
    requires Lists(vs, v.Keys)
  {
    forall w: map<Bytes, Bytes>, ws: seq<Bytes> {:trigger EntriesOf(w, ws)} ::
      Lists(ws, w.Keys) && Encode(EntriesOf(w, ws)) == Encode(EntriesOf(v, vs)) ==> w == v
  }

  /** A map of one entry, with its listing. */
  lemma {:induction false} Single(e: Entry)
    ensures
      var w := map[e.name := e.value];
      && Lists([e.name], w.Keys) && EntriesOf(w, [e.name]) == [e]
      && Encode(EntriesOf(w, [e.name])) == Written(e)
  {
    EncodeAppends([], e);
    assert [] + [e] == [e];
  }

  /** Two or more entries read as one whose value holds all the rest. */
  lemma {:induction false} SeveralReadAsOne(entries: seq<Entry>) returns (e: Entry)
    requires |entries| >= 2
    ensures Written(e) == Encode(entries) && e.name == entries[0].name
  {
    var rest := Encode(entries[1..]);
    EncodeStarts(entries);
    var last := entries[1..][|entries| - 2];
    assert rest == Encode(entries[1..][..|entries| - 2]) + Written(last);
    var body := rest[..|rest| - 1];
    assert rest == body + [0];
    e := Entry(entries[0].name, entries[0].value + [0] + body);
    assert Written(e) == Written(entries[0]) + rest;
  }

  /** A zero byte in an entry lets name and value part elsewhere. */
  lemma {:induction false} NulMovesTheSplit(e: Entry) returns (f: Entry)
    requires !NoNul(e.name) || !NoNul(e.value)
    ensures Written(f) == Written(e) && f.name != e.name
  {
    if !NoNul(e.value) {
      var k :| 0 <= k < |e.value| && e.value[k] == 0;
      f := Entry(e.name + [0] + e.value[..k], e.value[k + 1..]);
      assert e.value == e.value[..k] + [0] + e.value[k + 1..];
      assert Written(f) == e.name + [0] + (e.value[..k] + [0] + e.value[k + 1..]) + [0];
    } else {
      var k :| 0 <= k < |e.name| && e.name[k] == 0;
      f := Entry(e.name[..k], e.name[k + 1..] + [0] + e.value);
      assert e.name == e.name[..k] + [0] + e.name[k + 1..];
      assert Written(f) == (e.name[..k] + [0] + e.name[k + 1..]) + [0] + e.value + [0];
    }
  }

  /** Every entry costs two zero bytes. */
  lemma {:induction false} TwoZerosEach(entries: seq<Entry>)
    ensures multiset(Encode(entries))[0] >= 2 * |entries|
    decreases |entries|
  {
    if entries != [] { TwoZerosEach(entries[..|entries| - 1]); }
  }

  lemma {:induction false} PlainHasTwoZeros(e: Entry)
    ensures multiset(Written(e))[0] == 2 <==> NoNul(e.name) && NoNul(e.value)
  {
    assert multiset(Written(e))[0] == multiset(e.name)[0] + multiset(e.value)[0] + 2;
    assert 0 in e.name <==> 0 in multiset(e.name);
    assert 0 in e.value <==> 0 in multiset(e.value);
  }

  /** Only one plain entry reads as one plain entry. */
  lemma {:induction false} PlainEntryIsUnique(e: Entry, entries: seq<Entry>)
    requires NoNul(e.name) && NoNul(e.value) && Encode(entries) == Written(e)
    ensures entries == [e]
  {
    PlainHasTwoZeros(e);
    TwoZerosEach(entries);
    assert entries != [];
    assert |entries| == 1 && entries == [entries[0]];
    EncodeAppends([], entries[0]);
    assert [] + [entries[0]] == entries;
    PlainHasTwoZeros(entries[0]);
    assert Written(e) + [] == Written(entries[0]) + [];
    EntryIsUnique(e, [], entries[0], []);
  }

  lemma {:induction false} EntriesGiveTheMap(v: map<Bytes, Bytes>, vs: seq<Bytes>, w: map<Bytes, Bytes>, ws: seq<Bytes>)
    requires Lists(vs, v.Keys) && Lists(ws, w.Keys) && EntriesOf(v, vs) == EntriesOf(w, ws)
    ensures v == w
  {
    var a, b := EntriesOf(v, vs), EntriesOf(w, ws);
    assert vs == ws by { assert forall i :: 0 <= i < |vs| ==> vs[i] == a[i].name && ws[i] == b[i].name; }
    forall n ensures n in v <==> n in w { assert n in v <==> n in vs; assert n in w <==> n in ws; }
    forall n | n in v ensures v[n] == w[n] {
      var i :| 0 <= i < |vs| && vs[i] == n;
      assert a[i].value == b[i].value;
    }
  }

  lemma {:induction false} SharedBytes(v: map<Bytes, Bytes>, vs: seq<Bytes>, e: Entry)
    requires Lists(vs, v.Keys) && Encode(EntriesOf(v, vs)) == Written(e) && v != map[e.name := e.value]
    ensures !OwnsItsBytes(v, vs)
  {
    Single(e);
    assert EntriesOf(map[e.name := e.value], [e.name]) == [e];
  }

  lemma {:induction false} EmptyReadsAsNothing(entries: seq<Entry>)
    requires Encode(entries) == []
    ensures entries == []
  {
    if entries != [] { EncodeStarts(entries); }
  }

  lemma {:induction false} AloneReadsOneWay(v: map<Bytes, Bytes>, vs: seq<Bytes>, entries: seq<Entry>)
    requires Lists(vs, v.Keys) && |vs| == 1 && Plain(v) && Encode(entries) == Encode(EntriesOf(v, vs))
    ensures entries == EntriesOf(v, vs)
  {
    var a := EntriesOf(v, vs);
    assert vs[0] in vs && vs[0] in v;
    EncodeAppends([], a[0]);
    assert [] + [a[0]] == a;
    PlainEntryIsUnique(a[0], entries);
  }

  lemma {:induction false} OwnedWhenAlone(v: map<Bytes, Bytes>, vs: seq<Bytes>)
    requires Lists(vs, v.Keys) && (|vs| == 0 || (|vs| == 1 && Plain(v)))
    ensures OwnsItsBytes(v, vs)
  {
    forall w: map<Bytes, Bytes>, ws: seq<Bytes> |
      Lists(ws, w.Keys) && Encode(EntriesOf(w, ws)) == Encode(EntriesOf(v, vs))
      ensures w == v
    {
      if |vs| == 0 { EmptyReadsAsNothing(EntriesOf(w, ws)); } else { AloneReadsOneWay(v, vs, EntriesOf(w, ws)); }
      EntriesGiveTheMap(v, vs, w, ws);
    }
  }

  lemma {:induction false} SharedWhenSeveral(v: map<Bytes, Bytes>, vs: seq<Bytes>)
    requires Lists(vs, v.Keys) && |vs| >= 2
    ensures !OwnsItsBytes(v, vs)
  {
    var e := SeveralReadAsOne(EntriesOf(v, vs));
    LessIsTotal(vs[0], vs[1]);
    assert vs[1] in vs && vs[1] in v;
    assert vs[1] !in map[e.name := e.value];
    SharedBytes(v, vs, e);
  }

  lemma {:induction false} SharedWithNul(v: map<Bytes, Bytes>, vs: seq<Bytes>)
    requires Lists(vs, v.Keys) && |vs| == 1 && !Plain(v)
    ensures !OwnsItsBytes(v, vs)
  {
    var a := EntriesOf(v, vs);
    assert forall n :: n in v <==> n == vs[0] by { assert forall n :: n in vs <==> n == vs[0]; }
    var f := NulMovesTheSplit(a[0]);
    EncodeAppends([], a[0]);
    assert [] + [a[0]] == a;
    SharedBytes(v, vs, f);
  }

  /** A map has its bytes to itself iff it is empty, or has one entry and no zero byte in it. */
  lemma {:induction false} OwnsItsBytesIff(v: map<Bytes, Bytes>, vs: seq<Bytes>)
    requires Lists(vs, v.Keys)
    ensures OwnsItsBytes(v, vs) <==> |vs| == 0 || (|vs| == 1 && Plain(v))
  {
    if |vs| >= 2 { SharedWhenSeveral(v, vs); }
    else if |vs| == 1 && !Plain(v) { SharedWithNul(v, vs); }
    else { OwnedWhenAlone(v, vs); }
  }

  lemma {:induction false} PairIsListed(m: Bytes, n: Bytes)
    requires Less(m, n)
    ensures Lists([m, n], {m, n})
  {
    var names := [m, n];
    forall i, j | 0 <= i < j < |names| ensures Less(names[i], names[j]) { assert i == 0 && j == 1; }
  }

  lemma {:induction false} PairIsEncoded(a: Entry, b: Entry)
    ensures Encode([a, b]) == Written(a) + Written(b)
  {
    var one, two := [a], [a, b];
    assert two[..1] == one && one[..0] == [];
    assert Encode(one) == Encode(one[..0]) + Written(a);
  }

  /** A map of two entries, with its listing. */
  lemma {:induction false} Double(a: Entry, b: Entry)
    requires Less(a.name, b.name)
    ensures
      var w := map[a.name := a.value, b.name := b.value];
      && Lists([a.name, b.name], w.Keys) && EntriesOf(w, [a.name, b.name]) == [a, b]
      && Encode(EntriesOf(w, [a.name, b.name])) == Written(a) + Written(b)
  {
    var w := map[a.name := a.value, b.name := b.value];
    LessIsTotal(a.name, b.name);
    PairIsListed(a.name, b.name);
    assert w.Keys == {a.name, b.name};
    assert EntriesOf(w, [a.name, b.name]) == [a, b];
    PairIsEncoded(a, b);
  }

  /** A zero byte inside a value, and the two entries it reads as. */
  lemma {:induction false} NulHidesAnEntry()
    ensures
      var v, w := map[[1] := [2, 0, 3, 0, 4]], map[[1] := [2], [3] := [4]];
      && v != w && Lists([[1]], v.Keys) && Lists([[1], [3]], w.Keys)
      && Encode(EntriesOf(v, [[1]])) == Encode(EntriesOf(w, [[1], [3]]))
  {
    var e, a, b := Entry([1], [2, 0, 3, 0, 4]), Entry([1], [2]), Entry([3], [4]);
    Single(e);
    Double(a, b);
    assert [3] in map[a.name := a.value, b.name := b.value] && [3] !in map[e.name := e.value];
    assert Written(a) + Written(b) == Written(e);
  }

  // ----- Insertion order -----

  /** A later call with the same name replaces the value. */
  function Inserted(adds: seq<Entry>): map<Bytes, Bytes> {
    if adds == [] then map[] else Inserted(adds[..|adds| - 1])[adds[|adds| - 1].name := adds[|adds| - 1].value]
  }

  /** A name that is added again is added with the same value. */
  predicate Consistent(adds: seq<Entry>) {
    forall i, j | 0 <= i < |adds| && 0 <= j < |adds| && adds[i].name == adds[j].name :: adds[i].value == adds[j].value
  }

  lemma {:induction false} InsertedHolds(adds: seq<Entry>)
    requires Consistent(adds)
    ensures forall n :: n in Inserted(adds) <==> exists e :: e in adds && e.name == n
    ensures forall e <- adds :: e.name in Inserted(adds) && Inserted(adds)[e.name] == e.value
    decreases |adds|
  {
    if adds != [] {
      var front, last := adds[..|adds| - 1], adds[|adds| - 1];
      assert adds == front + [last];
      InsertedHolds(front);
      forall n | n in Inserted(adds) ensures exists e :: e in adds && e.name == n {
        if n == last.name { assert last in adds; }
        else { assert n in Inserted(front); var e :| e in front && e.name == n; assert e in adds; }
      }
      forall e <- adds ensures e.name in Inserted(adds) && Inserted(adds)[e.name] == e.value {
        if e.name == last.name {
          var i :| 0 <= i < |adds| && adds[i] == e;
          assert adds[i].value == adds[|adds| - 1].value;
        } else {
          assert e in front;
        }
      }
    }
  }

  lemma {:induction false} SameCalls(a: seq<Entry>, b: seq<Entry>)
    requires multiset(a) == multiset(b)
    ensures forall e :: e in a <==> e in b
    ensures Consistent(a) ==> Consistent(b)
  {
    assert forall e :: e in a <==> e in multiset(a);
    assert forall e :: e in b <==> e in multiset(b);
    if Consistent(a) {
      forall i, j | 0 <= i < |b| && 0 <= j < |b| && b[i].name == b[j].name ensures b[i].value == b[j].value {
        assert b[i] in a && b[j] in a;
        var k :| 0 <= k < |a| && a[k] == b[i];
        var l :| 0 <= l < |a| && a[l] == b[j];
      }
    }
  }

  lemma {:induction false} SameCallsSameMap(a: seq<Entry>, b: seq<Entry>)
    requires multiset(a) == multiset(b) && Consistent(a)
    ensures Inserted(a) == Inserted(b)
  {
    SameCalls(a, b);
    InsertedHolds(a);
    InsertedHolds(b);
    forall n | n in Inserted(a) ensures n in Inserted(b) && Inserted(b)[n] == Inserted(a)[n] {
      var e :| e in a && e.name == n;
      assert e in b;
    }
    forall n | n in Inserted(b) ensures n in Inserted(a) {
      var e :| e in b && e.name == n;
      assert e in a;
    }
  }

  /** The same calls with one of them moved to the end. */
  function MovedLast(a: seq<Entry>, i: nat): (b: seq<Entry>)
    requires i < |a|
  {
    a[..i] + a[i + 1..] + [a[i]]
  }

  lemma {:induction false} MovedLastWins(a: seq<Entry>, i: nat)
    requires i < |a|
    ensures multiset(MovedLast(a, i)) == multiset(a)
    ensures a[i].name in Inserted(MovedLast(a, i)) && Inserted(MovedLast(a, i))[a[i].name] == a[i].value
  {
    assert a == a[..i] + [a[i]] + a[i + 1..];
    assert MovedLast(a, i)[|a| - 1] == a[i];
  }

  /** The order of the calls does not matter iff no name is added with two values. */
  lemma {:induction false} OrderOfInsertionDoesNotMatterIff(a: seq<Entry>)
    ensures (forall b: seq<Entry> | multiset(b) == multiset(a) :: Inserted(b) == Inserted(a)) <==> Consistent(a)
  {
    if Consistent(a) {
      forall b: seq<Entry> | multiset(b) == multiset(a) ensures Inserted(b) == Inserted(a) { SameCallsSameMap(a, b); }
    } else {
      var i, j :| 0 <= i < |a| && 0 <= j < |a| && a[i].name == a[j].name && a[i].value != a[j].value;
      MovedLastWins(a, i);
      MovedLastWins(a, j);
      assert Inserted(MovedLast(a, i)) != Inserted(MovedLast(a, j));
    }
  }

  /** So then the bytes are the same as well. */
  lemma {:induction false} OrderOfInsertionDoesNotMatter(
      a: seq<Entry>, b: seq<Entry>, names: seq<Bytes>, others: seq<Bytes>)
    requires multiset(a) == multiset(b) && Consistent(a)
    requires Lists(names, Inserted(a).Keys) && Lists(others, Inserted(b).Keys)
    ensures Encode(EntriesOf(Inserted(a), names)) == Encode(EntriesOf(Inserted(b), others))
  {
    SameCallsSameMap(a, b);
    ListingIsUnique(names, others, Inserted(a).Keys);
  }

  lemma {:induction false} OneCall(e: Entry)
    ensures Inserted([e]) == map[e.name := e.value]
  {
    assert [e][..0] == [] && Inserted([]) == map[];
  }

  /** Two calls with one name: the later one wins, and the bytes tell. */
  lemma {:induction false} LaterCallWins()
    ensures
      var a, b := Entry([1], [2]), Entry([1], [3]);
      && Inserted([a, b]) == map[[1] := [3]] && Inserted([b, a]) == map[[1] := [2]]
      && Encode(EntriesOf(Inserted([a, b]), [[1]])) != Encode(EntriesOf(Inserted([b, a]), [[1]]))
  {
    var a, b := Entry([1], [2]), Entry([1], [3]);
    OneCall(a);
    OneCall(b);
    assert [a, b][..1] == [a] && [b, a][..1] == [b];
    Single(a);
    Single(b);
    assert Written(a)[2] != Written(b)[2];
  }

  // ----- The builder -----

  lemma {:induction false} OneMoreName(values: map<Bytes, Bytes>, names: seq<Bytes>, name: Bytes)
    requires name in values && (forall n <- names :: n in values)
    requires Increasing(names) && forall n :: n in names ==> Less(n, name)
    ensures Increasing(names + [name])
    ensures Encode(EntriesOf(values, names + [name])) ==
            Encode(EntriesOf(values, names)) + Written(Entry(name, values[name]))
  {
    EncodeAppends(EntriesOf(values, names), Entry(name, values[name]));
    assert EntriesOf(values, names + [name]) == EntriesOf(values, names) + [Entry(name, values[name])];
  }

  class VarianceBuilder {
    var values: map<Bytes, Bytes>
    ghost var adds: seq<Entry>

    ghost predicate Valid()
      reads this
    {
      values == Inserted(adds)
    }

    constructor ()
      ensures Valid() && adds == []
    {
      values, adds := map[], [];
    }

    method AddValue(name: Bytes, value: Bytes)
      requires Valid()
      modifies this
      ensures Valid() && adds == old(adds) + [Entry(name, value)]
      ensures values == old(values)[name := value]
    {
      assert (adds + [Entry(name, value)])[..|adds|] == adds;
      values, adds := values[name := value], adds + [Entry(name, value)];
    }

    /** The digest of the bytes in name order, whatever the order of the calls was. */
    method Finalize(digest: Bytes -> nat) returns (hash: Option<nat>)
      requires Valid()
      ensures hash.None? <==> values == map[]
      ensures forall names {:trigger Lists(names, values.Keys)} :: hash.Some? && Lists(names, values.Keys) ==>
                hash == Some(digest(Encode(EntriesOf(values, names))))
    {
      if values == map[] { return None; }
      var rest := values.Keys;
      var input := [];
      ghost var walked: seq<Bytes> := [];
      while rest != {}
        invariant rest <= values.Keys && Increasing(walked)
        invariant forall n :: n in walked <==> n in values.Keys && n !in rest
        invariant forall n, m :: n in walked && m in rest ==> Less(n, m)
        invariant input == Encode(EntriesOf(values, walked))
        decreases |rest|
      {
        var name := First(rest);
        OneMoreName(values, walked, name);
        input := input + (name + [0] + values[name] + [0]);
        walked := walked + [name];
        rest := rest - {name};
      }
      hash := Some(digest(input));
      forall names {:trigger Lists(names, values.Keys)} | Lists(names, values.Keys)
        ensures input == Encode(EntriesOf(values, names))
      {
        ListingIsUnique(names, walked, values.Keys);
      }
    }
  }

  method First(names: set<Bytes>) returns (least: Bytes)
    requires names != {}
    ensures least in names && forall n :: n in names && n != least ==> Less(least, n)
  {
    least :| least in names;
    var rest := names - {least};
    while rest != {}
      invariant rest <= names && least in names && least !in rest
      invariant forall n :: n in names && n !in rest && n != least ==> Less(least, n)
      decreases |rest|
    {
      var n :| n in rest;
      LessIsTotal(n, least);
      if Less(n, least) {
        forall m | m in names && m !in rest && m != least ensures Less(n, m) { LessIsTransitive(n, least, m); }
        least := n;
      }
      rest := rest - {n};
    }
  }
}
