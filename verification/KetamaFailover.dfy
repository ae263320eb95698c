/**
 Failover along the iterator of a consistent-hashing ring, compared with a ring built
 without the address that is skipped.
 */
module KetamaFailover {
  import opened Basics
  import opened Ketama

  /** The first point of another address met from step `k` on, within one turn. */
  function SkipTo(c: Continuum, idx: nat, x: Addr, k: nat): Option<Claim>
    requires NodesKnown(c.ring, c.addrs) && idx < |c.ring| && k <= |c.ring|
    decreases |c.ring| - k
  {
    if k == |c.ring| then None
    else if AddrAt(c, Visit(c.ring, idx, k)) != x then Some(ClaimAt(c, Visit(c.ring, idx, k)))
    else SkipTo(c, idx, x, k + 1)
  }

  function FailoverPoint(c: Continuum, hash: Hash, x: Addr): Option<Claim>
    requires NodesKnown(c.ring, c.addrs)
  {
    if c.ring == [] then None else SkipTo(c, NodeIdx(c.ring, hash), x, 0)
  }

  function NodePoint(c: Continuum, hash: Hash): Option<Claim>
    requires NodesKnown(c.ring, c.addrs)
  {
    if c.ring == [] then None else Some(ClaimAt(c, NodeIdx(c.ring, hash)))
  }

  function AddrOf(p: Option<Claim>): Option<Addr> { match p case None => None case Some(q) => Some(q.addr) }

  function Failover(c: Continuum, hash: Hash, x: Addr): Option<Addr>
    requires NodesKnown(c.ring, c.addrs)
  {
    AddrOf(FailoverPoint(c, hash, x))
  }

  lemma {:induction false} SkipToFindsFirst(c: Continuum, idx: nat, x: Addr, k: nat) returns (m: nat)
    requires NodesKnown(c.ring, c.addrs) && idx < |c.ring| && k <= |c.ring|
    requires forall j | 0 <= j < k :: AddrAt(c, Visit(c.ring, idx, j)) == x
    ensures m <= |c.ring| && forall j | 0 <= j < m :: AddrAt(c, Visit(c.ring, idx, j)) == x
    ensures SkipTo(c, idx, x, k) == if m == |c.ring| then None else Some(ClaimAt(c, Visit(c.ring, idx, m)))
    ensures m < |c.ring| ==> AddrAt(c, Visit(c.ring, idx, m)) != x
    decreases |c.ring| - k
  {
    m := k;
    if k < |c.ring| && AddrAt(c, Visit(c.ring, idx, k)) == x { m := SkipToFindsFirst(c, idx, x, k + 1); }
  }

  // ----- Leaving an address out -----

  function Remove(buckets: seq<Bucket>, x: Addr): (r: seq<Bucket>)
    ensures |r| <= |buckets|
    ensures forall b :: b in r <==> b in buckets && b.node != x
  {
    if buckets == [] then []
    else (if buckets[0].node == x then [] else [buckets[0]]) + Remove(buckets[1..], x)
  }

  ghost function Without(claims: iset<Claim>, x: Addr): iset<Claim> { iset p | p in claims && p.addr != x }

  lemma {:induction false} RemoveIsWithout(buckets: seq<Bucket>, x: Addr, version: Version, crc: Crc)
    ensures Claims(Remove(buckets, x), version, crc) == Without(Claims(buckets, version, crc), x)
  {
  }

  /** `c` is a ring of all claims and `d` one of those of the other addresses. */
  ghost predicate Pair(c: Continuum, d: Continuum, claims: iset<Claim>, x: Addr, smallest: bool) {
    Represents(c, claims, smallest) && Represents(d, Without(claims, x), smallest)
  }

  lemma {:induction false} BuiltPair(
      buckets: seq<Bucket>, x: Addr, version: Version, crc: Crc, c: Continuum, d: Continuum)
    requires |buckets| <= 0x1_0000
    requires Builds(buckets, version, crc, c) && Builds(Remove(buckets, x), version, crc, d)
    ensures Pair(c, d, Claims(buckets, version, crc), x, version.V2?)
  {
    BuiltRingRepresents(buckets, version, crc, c);
    BuiltRingRepresents(Remove(buckets, x), version, crc, d);
    RemoveIsWithout(buckets, x, version, crc);
  }

  // ----- Which key finds the same point -----

  /** The ring gives this hash to this address. */
  ghost predicate RingHolds(c: Continuum, x: Addr, h: Hash)
    requires NodesKnown(c.ring, c.addrs)
  {
    exists i: nat :: i < |c.ring| && c.ring[i].hash == h && AddrAt(c, i) == x
  }

  lemma {:induction false} SameHashSamePlace(ring: seq<Point>, i: nat, j: nat)
    requires StrictlyIncreasing(ring) && i < |ring| && j < |ring| && ring[i].hash == ring[j].hash
    ensures i == j
  {
  }

  /** A hash the ring gives to `x` is not what failover from `x` finds. */
  lemma {:induction false} FailoverMissesHeldPoint(c: Continuum, hash: Hash, x: Addr, h: Hash)
    requires NodesKnown(c.ring, c.addrs) && StrictlyIncreasing(c.ring) && RingHolds(c, x, h)
    ensures FailoverPoint(c, hash, x).Some? ==> FailoverPoint(c, hash, x).value.hash != h
  {
    var i: nat :| i < |c.ring| && c.ring[i].hash == h && AddrAt(c, i) == x;
    var idx := NodeIdx(c.ring, hash);
    var m := SkipToFindsFirst(c, idx, x, 0);
    if m < |c.ring| {
      var j := Visit(c.ring, idx, m);
      if c.ring[j].hash == h { SameHashSamePlace(c.ring, j, i); }
    }
  }

  lemma {:induction false} OwnerKeepsItsPlace(
      c: Continuum, claims: iset<Claim>, smallest: bool, hash: Hash, x: Addr, p: Claim) returns (i: nat)
    requires Represents(c, claims, smallest) && Owns(Without(claims, x), hash, p, smallest)
    requires smallest || NoSharedPoints(Without(claims, x))
    requires !RingHolds(c, x, p.hash)
    ensures i < |c.ring| && ClaimAt(c, i) == p
  {
    i := PlaceOf(c, claims, smallest, p);
    assert AddrAt(c, i) != x;
    assert ClaimAt(c, i) in Without(claims, x);
    assert NoCloser(hash, p, ClaimAt(c, i), smallest);
  }

  /** The owner among the others, if the ring gives its hash to one of them, is what failover finds. */
  lemma {:induction false} FailoverFindsOwner(
      c: Continuum, claims: iset<Claim>, smallest: bool, hash: Hash, x: Addr, p: Claim, i: nat)
    requires Represents(c, claims, smallest) && Owns(Without(claims, x), hash, p, smallest)
    requires i < |c.ring| && ClaimAt(c, i) == p
    ensures FailoverPoint(c, hash, x) == Some(p)
  {
    var idx := NodeIdx(c.ring, hash);
    var j := StepsTo(c.ring, idx, i);
    VisitUnrolled(c.ring, idx, j);
    var m := SkipToFindsFirst(c, idx, x, 0);
    assert m <= j;
    var k := Visit(c.ring, idx, m);
    assert ClaimAt(c, k) in claims && ClaimAt(c, k) in Without(claims, x);
    assert NoCloser(hash, p, ClaimAt(c, k), smallest);
    if m < j { VisitsGoClockwise(c.ring, hash, m, j); }
  }

  /** With no other address left there is nothing to find. */
  lemma {:induction false} NobodyElse(c: Continuum, claims: iset<Claim>, smallest: bool, hash: Hash, x: Addr)
    requires Represents(c, claims, smallest) && Without(claims, x) == iset{}
    ensures FailoverPoint(c, hash, x) == None
  {
    if c.ring != [] {
      var m := SkipToFindsFirst(c, NodeIdx(c.ring, hash), x, 0);
      forall i | 0 <= i < |c.ring| ensures AddrAt(c, i) == x {
        assert ClaimAt(c, i) in claims && ClaimAt(c, i) !in Without(claims, x);
      }
    }
  }

  ghost predicate FindsTheSame(c: Continuum, d: Continuum, hash: Hash, x: Addr) {
    && NodesKnown(c.ring, c.addrs) && NodesKnown(d.ring, d.addrs)
    && FailoverPoint(c, hash, x) == NodePoint(d, hash)
  }

  /**
   For one key: failover on the ring and lookup on the rebuilt ring find the same point iff
   the ring does not give the rebuilt ring's answer to the address that is skipped.
   */
  lemma {:induction false} FailoverFindsTheSameIff(
      c: Continuum, d: Continuum, claims: iset<Claim>, smallest: bool, hash: Hash, x: Addr)
    requires Pair(c, d, claims, x, smallest) && (smallest || NoSharedPoints(Without(claims, x)))
    ensures
      FindsTheSame(c, d, hash, x) <==>
      d.ring == [] || !RingHolds(c, x, d.ring[NodeIdx(d.ring, hash)].hash)
  {
    LookupFindsOwner(d, Without(claims, x), smallest, hash);
    if d.ring == [] {
      NobodyElse(c, claims, smallest, hash, x);
    } else {
      var p := ClaimAt(d, NodeIdx(d.ring, hash));
      if RingHolds(c, x, p.hash) { FailoverMissesHeldPoint(c, hash, x, p.hash); }
      else {
        var i := OwnerKeepsItsPlace(c, claims, smallest, hash, x, p);
        FailoverFindsOwner(c, claims, smallest, hash, x, p, i);
      }
    }
  }

  // ----- V2: which rings find the same for every key -----

  /** Wherever `x` shares a point with another address, a smaller address shares it too. */
  ghost predicate NeverHides(claims: iset<Claim>, x: Addr) {
    forall p, q | p in claims && q in claims && p.hash == q.hash && p.addr == x && q.addr != x :: HasSmaller(claims, p)
  }

  ghost predicate HasSmaller(claims: iset<Claim>, p: Claim) {
    exists r :: r in claims && r.hash == p.hash && r.addr < p.addr
  }

  lemma {:induction false} HoldsIffSmallest(c: Continuum, claims: iset<Claim>, x: Addr, h: Hash)
    requires Represents(c, claims, true)
    ensures RingHolds(c, x, h) <==> Claim(x, h) in claims && !HasSmaller(claims, Claim(x, h))
  {
    if RingHolds(c, x, h) {
      var i: nat :| i < |c.ring| && c.ring[i].hash == h && AddrAt(c, i) == x;
      assert ClaimAt(c, i) in claims;
      forall r | r in claims && r.hash == h ensures x <= r.addr {
        var m := PlaceOf(c, claims, true, r);
        SameHashSamePlace(c.ring, m, i);
      }
    }
    if Claim(x, h) in claims && !HasSmaller(claims, Claim(x, h)) {
      var m := PlaceOf(c, claims, true, Claim(x, h));
      assert !(ClaimAt(c, m).addr < x);
    }
  }

  lemma {:induction false} HidingShows(c: Continuum, d: Continuum, claims: iset<Claim>, x: Addr, p: Claim, q: Claim)
    requires Pair(c, d, claims, x, true) && p in claims && q in claims
    requires p.hash == q.hash && p.addr == x && q.addr != x && !HasSmaller(claims, p)
    ensures !FindsTheSame(c, d, p.hash, x)
  {
    LookupFindsOwner(d, Without(claims, x), true, p.hash);
    assert q in Without(claims, x);
    var found := ClaimAt(d, NodeIdx(d.ring, p.hash));
    assert NoCloser(p.hash, found, q, true);
    assert found.hash == p.hash;
    HoldsIffSmallest(c, claims, x, p.hash);
    FailoverFindsTheSameIff(c, d, claims, true, p.hash, x);
  }

  lemma {:induction false} NothingHiddenShows(
      c: Continuum, d: Continuum, claims: iset<Claim>, x: Addr, hash: Hash)
    requires Pair(c, d, claims, x, true) && NeverHides(claims, x)
    ensures FindsTheSame(c, d, hash, x)
  {
    FailoverFindsTheSameIff(c, d, claims, true, hash, x);
    if d.ring != [] {
      var q := ClaimAt(d, NodeIdx(d.ring, hash));
      assert q in Without(claims, x);
      HoldsIffSmallest(c, claims, x, q.hash);
      assert Claim(x, q.hash) in claims ==> HasSmaller(claims, Claim(x, q.hash));
    }
  }

  lemma {:induction false} PairFindsTheSameIff(c: Continuum, d: Continuum, claims: iset<Claim>, x: Addr)
    requires Pair(c, d, claims, x, true)
    ensures (forall hash: Hash :: FindsTheSame(c, d, hash, x)) <==> NeverHides(claims, x)
  {
    if NeverHides(claims, x) {
      forall hash: Hash ensures FindsTheSame(c, d, hash, x) { NothingHiddenShows(c, d, claims, x, hash); }
    } else {
      var p, q :|
        p in claims && q in claims && p.hash == q.hash && p.addr == x && q.addr != x && !HasSmaller(claims, p);
      HidingShows(c, d, claims, x, p, q);
    }
  }

  /**
   Failover equals rebuild, point for point and for every key, iff the address that is
   skipped never hides another one.
   */
  lemma {:induction false} FailoverEqualsRebuildIff(
      buckets: seq<Bucket>, x: Addr, multiple: nat, crc: Crc, c: Continuum, d: Continuum)
    requires |buckets| <= 0x1_0000
    requires Builds(buckets, V2(multiple), crc, c) && Builds(Remove(buckets, x), V2(multiple), crc, d)
    ensures (forall hash: Hash :: FindsTheSame(c, d, hash, x)) <==> NeverHides(Claims(buckets, V2(multiple), crc), x)
  {
    BuiltPair(buckets, x, V2(multiple), crc, c, d);
    PairFindsTheSameIff(c, d, Claims(buckets, V2(multiple), crc), x);
  }

  /** For either version, and on addresses: what holds when nothing is hidden. */
  lemma {:induction false} FailoverEqualsRebuild(
      buckets: seq<Bucket>, x: Addr, version: Version, crc: Crc, c: Continuum, d: Continuum, hash: Hash)
    requires |buckets| <= 0x1_0000
    requires Builds(buckets, version, crc, c) && Builds(Remove(buckets, x), version, crc, d)
    requires
      var claims := Claims(buckets, version, crc);
      if version.V2? then NeverHides(claims, x) else NoSharedPoints(claims)
    ensures NodesKnown(c.ring, c.addrs) && NodesKnown(d.ring, d.addrs)
    ensures Failover(c, hash, x) == Node(d, hash)
  {
    var claims := Claims(buckets, version, crc);
    BuiltPair(buckets, x, version, crc, c, d);
    if version.V2? { NothingHiddenShows(c, d, claims, x, hash); } else { NoSharingShows(c, d, claims, x, hash); }
  }

  lemma {:induction false} NoSharingShows(c: Continuum, d: Continuum, claims: iset<Claim>, x: Addr, hash: Hash)
    requires Pair(c, d, claims, x, false) && NoSharedPoints(claims)
    ensures FindsTheSame(c, d, hash, x)
  {
    FailoverFindsTheSameIff(c, d, claims, false, hash, x);
    if d.ring != [] {
      var q := ClaimAt(d, NodeIdx(d.ring, hash));
      assert q in Without(claims, x);
      forall i: nat | i < |c.ring| && c.ring[i].hash == q.hash ensures AddrAt(c, i) != x {
        assert ClaimAt(c, i) in claims;
      }
    }
  }

  /** A ring on which it does: address 1 hides address 2, which shares its only point. */
  lemma {:induction false} MaskedPointBreaksFailover(
      ) returns (buckets: seq<Bucket>, crc: Crc, c: Continuum, d: Continuum)
    ensures buckets == [Bucket(1, 1), Bucket(2, 1), Bucket(3, 1)]
    ensures Builds(buckets, V2(1), crc, c) && Builds(Remove(buckets, 1), V2(1), crc, d)
    ensures NodesKnown(c.ring, c.addrs) && NodesKnown(d.ring, d.addrs)
    ensures Failover(c, 5, 1) == Some(3) && Node(d, 5) == Some(2)
  {
    buckets := [Bucket(1, 1), Bucket(2, 1), Bucket(3, 1)];
    crc := (a: Addr, h: Hash) => if a == 3 then 9 else 5;
    c := MaskingRing(buckets, crc);
    assert buckets[1..] == [Bucket(2, 1), Bucket(3, 1)] && buckets[1..][1..] == [Bucket(3, 1)];
    assert Remove(buckets, 1) == [Bucket(2, 1), Bucket(3, 1)];
    d := RevealedRing(Remove(buckets, 1), crc);
  }

  lemma {:induction false} MaskingRing(buckets: seq<Bucket>, crc: Crc) returns (c: Continuum)
    requires buckets == [Bucket(1, 1), Bucket(2, 1), Bucket(3, 1)]
    requires crc(1, 0) == 5 && crc(2, 0) == 5 && crc(3, 0) == 9
    ensures Builds(buckets, V2(1), crc, c) && NodesKnown(c.ring, c.addrs) && Failover(c, 5, 1) == Some(3)
  {
    var p := [Point(0, 5), Point(1, 5), Point(2, 9)];
    c := Continuum([Point(0, 5), Point(2, 9)], [1, 2, 3]);
    ThreePoints(buckets, crc);
    assert Nodes(buckets) == [1, 2, 3];
    assert IsSortOf(V2(1), c.addrs, p, p) && c.ring == Dedup(p) by { MaskingSort(p); }
    MaskingWalk(c);
  }

  lemma {:induction false} MaskingSort(p: seq<Point>)
    requires p == [Point(0, 5), Point(1, 5), Point(2, 9)]
    ensures IsSortOf(V2(1), [1, 2, 3], p, p) && Dedup(p) == [Point(0, 5), Point(2, 9)]
  {
    assert p[..2] == [Point(0, 5), Point(1, 5)] && p[..2][..1] == [Point(0, 5)];
    assert Dedup(p[..2]) == Dedup(p[..2][..1]) == [Point(0, 5)];
  }

  lemma {:induction false} MaskingWalk(c: Continuum)
    requires c == Continuum([Point(0, 5), Point(2, 9)], [1, 2, 3])
    ensures Failover(c, 5, 1) == Some(3)
  {
    assert c.ring[..1] == [Point(0, 5)] && c.ring[..1][..0] == [];
    assert InsertAt(c.ring, 5) == 0;
    assert Visit(c.ring, 0, 1) == 1;
    assert SkipTo(c, 0, 1, 0) == SkipTo(c, 0, 1, 1);
  }

  lemma {:induction false} RevealedRing(buckets: seq<Bucket>, crc: Crc) returns (d: Continuum)
    requires buckets == [Bucket(2, 1), Bucket(3, 1)] && crc(2, 0) == 5 && crc(3, 0) == 9
    ensures Builds(buckets, V2(1), crc, d) && NodesKnown(d.ring, d.addrs) && Node(d, 5) == Some(2)
  {
    d := Continuum([Point(0, 5), Point(1, 9)], [2, 3]);
    TwoPoints(buckets, crc);
    assert Nodes(buckets) == [2, 3];
    RevealedSort(d.ring);
    RevealedLookup(d);
  }

  lemma {:induction false} RevealedSort(p: seq<Point>)
    requires p == [Point(0, 5), Point(1, 9)]
    ensures IsSortOf(V2(1), [2, 3], p, p) && Dedup(p) == p
  {
    assert p[..1] == [Point(0, 5)];
  }

  lemma {:induction false} RevealedLookup(d: Continuum)
    requires d == Continuum([Point(0, 5), Point(1, 9)], [2, 3])
    ensures Node(d, 5) == Some(2)
  {
    assert d.ring[..1] == [Point(0, 5)] && d.ring[..1][..0] == [];
    assert InsertAt(d.ring, 5) == 0;
  }

  lemma {:induction false} OneMorePoint(buckets: seq<Bucket>, crc: Crc)
    requires 0 < |buckets| <= 0x1_0000 && buckets[|buckets| - 1].weight == 1
    ensures var i := |buckets| - 1;
            Points(buckets, V2(1), crc) == Points(buckets[..i], V2(1), crc) + [Point(i, crc(buckets[i].node, 0))]
  {
    var i := |buckets| - 1;
    var a := buckets[i].node;
    assert Chain(crc, a, 1) == Chain(crc, a, 0) + [crc(a, 0)] == [crc(a, 0)];
    assert Index16(i) == i;
    assert Tagged(i, [crc(a, 0)]) == [Point(i, crc(a, 0))];
  }

  lemma {:induction false} TwoPoints(buckets: seq<Bucket>, crc: Crc)
    requires |buckets| == 2 && buckets[0].weight == 1 && buckets[1].weight == 1
    ensures Points(buckets, V2(1), crc) == [Point(0, crc(buckets[0].node, 0)), Point(1, crc(buckets[1].node, 0))]
  {
    OneMorePoint(buckets, crc);
    OneMorePoint(buckets[..1], crc);
  }

  lemma {:induction false} ThreePoints(buckets: seq<Bucket>, crc: Crc)
    requires |buckets| == 3 && forall i | 0 <= i < 3 :: buckets[i].weight == 1
    ensures Points(buckets, V2(1), crc) ==
            [Point(0, crc(buckets[0].node, 0)), Point(1, crc(buckets[1].node, 0)), Point(2, crc(buckets[2].node, 0))]
  {
    OneMorePoint(buckets, crc);
    TwoPoints(buckets[..2], crc);
  }

  // ----- Walking past an address -----

  /** Walk the iterator past an address that is offline. */
  method FirstOther(c: Continuum, hash: Hash, x: Addr) returns (a: Option<Addr>)
    requires NodesKnown(c.ring, c.addrs)
    ensures a == Failover(c, hash, x)
  {
    var iter := new NodeIterator(c, hash);
    ghost var start := iter.idx;
    var k := 0;
    while k < |c.ring|
      invariant 0 <= k <= |c.ring| && iter.continuum == c
      invariant c.ring != [] ==> start < |c.ring| && iter.idx == Visit(c.ring, start, k)
      invariant c.ring != [] ==> SkipTo(c, start, x, k) == SkipTo(c, start, x, 0)
    {
      var next := iter.Next();
      if next != Some(x) {
        return next;
      }
      k := k + 1;
    }
    a := None;
  }
}
