/**
 The consistent-hashing ring. Points are pushed bucket by bucket, sorted, deduplicated
 by hash, and searched clockwise with wraparound. CRC32 is a parameter: nothing is
 assumed about it, in particular not that hashes are distinct.

 An address stands for its rank in the total order of socket addresses.
 */
module Ketama {
  import opened Basics

  type Addr = int
  type Hash = h: nat | h < HASHES
  const HASHES := 0x1_0000_0000

  /** The hash of an address followed by the previous hash. */
  type Crc = (Addr, Hash) -> Hash

  datatype Bucket = Bucket(node: Addr, weight: nat)
  datatype Point = Point(node: nat, hash: Hash)
  /** An address holding a point of the ring. */
  datatype Claim = Claim(addr: Addr, hash: Hash)
  datatype Version = V1 | V2(multiple: nat)

  datatype Continuum = Continuum(ring: seq<Point>, addrs: seq<Addr>)

  function PointMultiple(version: Version): nat {
    match version case V1 => 160 case V2(multiple) => multiple
  }

  // ----- Points -----

  /** `n` hashes, each computed from the one before. */
  function Chain(crc: Crc, a: Addr, n: nat): seq<Hash> {
    if n == 0 then []
    else
      var before := Chain(crc, a, n - 1);
      before + [crc(a, if n == 1 then 0 else before[|before| - 1])]
  }

  lemma {:induction false} ChainLength(crc: Crc, a: Addr, n: nat)
    ensures |Chain(crc, a, n)| == n
  {
    if n != 0 { ChainLength(crc, a, n - 1); }
  }

  function Count(b: Bucket, version: Version): nat { b.weight * PointMultiple(version) }

  /** The index of a bucket as the ring stores it, in 16 bits. */
  function Index16(i: nat): nat { i % 0x1_0000 }

  function Points(buckets: seq<Bucket>, version: Version, crc: Crc): seq<Point> {
    if buckets == [] then []
    else
      var i := |buckets| - 1;
      var hashes := Chain(crc, buckets[i].node, Count(buckets[i], version));
      Points(buckets[..i], version, crc) + Tagged(Index16(i), hashes)
  }

  function Tagged(node: nat, hashes: seq<Hash>): seq<Point> {
    seq(|hashes|, j requires 0 <= j < |hashes| => Point(node, hashes[j]))
  }

  function Nodes(buckets: seq<Bucket>): seq<Addr> { seq(|buckets|, i requires 0 <= i < |buckets| => buckets[i].node) }

  /** Who has a point where: what the ring is meant to hold, order and duplicates aside. */
  ghost function Claims(buckets: seq<Bucket>, version: Version, crc: Crc): iset<Claim> {
    iset b, h | b in buckets && h in Chain(crc, b.node, Count(b, version)) :: Claim(b.node, h)
  }

  // ----- How many points a bucket gets, and which -----

  /** The hashes of a node's points, in the order in which they were pushed. */
  function HashesOf(points: seq<Point>, node: nat): seq<Hash> {
    if points == [] then []
    else
      var last := points[|points| - 1];
      HashesOf(points[..|points| - 1], node) + if last.node == node then [last.hash] else []
  }

  /** The first hash is that of the address and zero, and each feeds the next. */
  ghost predicate Fed(crc: Crc, a: Addr, hashes: seq<Hash>) {
    forall j :: 0 <= j < |hashes| ==> hashes[j] == crc(a, FedInto(hashes, j))
  }

  function FedInto(hashes: seq<Hash>, j: nat): Hash
    requires j <= |hashes|
  {
    if j == 0 then 0 else hashes[j - 1]
  }

  /** A node's share of the points: so many for each unit of weight. */
  ghost predicate HasItsShare(b: Bucket, version: Version, crc: Crc, hashes: seq<Hash>) {
    && (version.V1? ==> |hashes| == b.weight * 160)
    && (version.V2? ==> |hashes| == b.weight * version.multiple)
    && Fed(crc, b.node, hashes)
  }

  ghost predicate Weighted(buckets: seq<Bucket>, version: Version, crc: Crc, points: seq<Point>) {
    forall i :: 0 <= i < |buckets| ==> HasItsShare(buckets[i], version, crc, HashesOf(points, i))
  }

  lemma {:induction false} ChainIsFed(crc: Crc, a: Addr, n: nat)
    ensures |Chain(crc, a, n)| == n && Fed(crc, a, Chain(crc, a, n))
  {
    if n != 0 {
      ChainIsFed(crc, a, n - 1);
      var before, all := Chain(crc, a, n - 1), Chain(crc, a, n);
      forall j | 0 <= j < n ensures all[j] == crc(a, FedInto(all, j)) {
        assert FedInto(all, j) == FedInto(before, j);
        if j < n - 1 { assert all[j] == before[j]; } else { assert all[j] == crc(a, FedInto(before, j)); }
      }
    }
  }

  lemma {:induction false} HashesOfConcat(a: seq<Point>, b: seq<Point>, node: nat)
    ensures HashesOf(a + b, node) == HashesOf(a, node) + HashesOf(b, node)
    decreases |b|
  {
    if b == [] {
      assert a + b == a;
    } else {
      HashesOfConcat(a, b[..|b| - 1], node);
      assert (a + b)[..|a + b| - 1] == a + b[..|b| - 1];
    }
  }

  lemma {:induction false} HashesOfTagged(tag: nat, hashes: seq<Hash>, node: nat)
    ensures HashesOf(Tagged(tag, hashes), node) == if node == tag then hashes else []
    decreases |hashes|
  {
    if hashes != [] {
      var front := hashes[..|hashes| - 1];
      HashesOfTagged(tag, front, node);
      assert Tagged(tag, hashes)[..|hashes| - 1] == Tagged(tag, front);
      assert hashes == front + [hashes[|hashes| - 1]];
    }
  }

  lemma {:induction false} HashesWithOneMore(points: seq<Point>, tag: nat, hashes: seq<Hash>, node: nat)
    ensures HashesOf(points + Tagged(tag, hashes), node) == HashesOf(points, node) + if node == tag then hashes else []
  {
    HashesOfConcat(points, Tagged(tag, hashes), node);
    HashesOfTagged(tag, hashes, node);
  }

  lemma {:induction false} HashesOfNode(buckets: seq<Bucket>, version: Version, crc: Crc, i: nat)
    requires |buckets| <= 0x1_0000
    ensures HashesOf(Points(buckets, version, crc), i) ==
            if i < |buckets| then Chain(crc, buckets[i].node, Count(buckets[i], version)) else []
    decreases |buckets|
  {
    if buckets != [] {
      var n := |buckets| - 1;
      var hashes := Chain(crc, buckets[n].node, Count(buckets[n], version));
      HashesOfNode(buckets[..n], version, crc, i);
      HashesWithOneMore(Points(buckets[..n], version, crc), n, hashes, i);
      assert Index16(n) == n;
    }
  }

  /** Every bucket gets points in proportion to its weight, each computed from the one before. */
  lemma {:induction false} PointsAreWeighted(buckets: seq<Bucket>, version: Version, crc: Crc)
    requires |buckets| <= 0x1_0000
    ensures Weighted(buckets, version, crc, Points(buckets, version, crc))
  {
    forall i | 0 <= i < |buckets|
      ensures HasItsShare(buckets[i], version, crc, HashesOf(Points(buckets, version, crc), i))
    {
      HashesOfNode(buckets, version, crc, i);
      ChainIsFed(crc, buckets[i].node, Count(buckets[i], version));
    }
  }

  // ----- Sorting and deduplication -----

  /** V1 compares hashes only; V2 breaks ties by address. */
  function Rank(version: Version, addrs: seq<Addr>, p: Point): int
    requires p.node < |addrs|
  {
    if version.V1? then 0 else addrs[p.node]
  }

  predicate Before(version: Version, addrs: seq<Addr>, p: Point, q: Point)
    requires p.node < |addrs| && q.node < |addrs|
  {
    p.hash < q.hash || (p.hash == q.hash && Rank(version, addrs, p) <= Rank(version, addrs, q))
  }

  predicate NodesKnown(ps: seq<Point>, addrs: seq<Addr>) {
    forall i | 0 <= i < |ps| :: ps[i].node < |addrs|
  }

  ghost predicate Sorted(version: Version, addrs: seq<Addr>, ps: seq<Point>)
    requires NodesKnown(ps, addrs)
  {
    forall i, j | 0 <= i < j < |ps| :: Before(version, addrs, ps[i], ps[j])
  }

  /** Anything an unstable sort may return. */
  ghost predicate IsSortOf(version: Version, addrs: seq<Addr>, ps: seq<Point>, sorted: seq<Point>) {
    NodesKnown(sorted, addrs) && Sorted(version, addrs, sorted) && multiset(sorted) == multiset(ps)
  }

  /** Of each run of equal hashes, the first point stays. */
  function Dedup(ps: seq<Point>): seq<Point> {
    if |ps| <= 1 then ps
    else
      var last := |ps| - 1;
      if ps[last].hash == ps[last - 1].hash then Dedup(ps[..last]) else Dedup(ps[..last]) + [ps[last]]
  }

  ghost predicate StrictlyIncreasing(ring: seq<Point>) {
    forall i, j | 0 <= i < j < |ring| :: ring[i].hash < ring[j].hash
  }

  lemma {:induction false} DedupIncreases(version: Version, addrs: seq<Addr>, ps: seq<Point>)
    requires NodesKnown(ps, addrs) && Sorted(version, addrs, ps)
    ensures StrictlyIncreasing(Dedup(ps))
    ensures forall p | p in Dedup(ps) :: p in ps
    ensures ps != [] ==> Dedup(ps) != [] && Dedup(ps)[|Dedup(ps)| - 1].hash == ps[|ps| - 1].hash
  {
    if |ps| > 1 {
      var last := |ps| - 1;
      DedupIncreases(version, addrs, ps[..last]);
      assert Before(version, addrs, ps[last - 1], ps[last]);
    }
  }

  /** Every point of a sorted sequence is represented by the first of its run. */
  lemma {:induction false} DedupKeepsFirst(version: Version, addrs: seq<Addr>, ps: seq<Point>, j: nat) returns (i: nat)
    requires NodesKnown(ps, addrs) && Sorted(version, addrs, ps) && j < |ps|
    ensures i < |Dedup(ps)| && FirstAt(version, addrs, Dedup(ps)[i], ps[j])
    decreases |ps|
  {
    var last := |ps| - 1;
    if last == 0 {
      i := 0;
    } else if j < last {
      i := DedupKeepsFirst(version, addrs, ps[..last], j);
    } else if ps[last].hash == ps[last - 1].hash {
      i := DedupKeepsFirst(version, addrs, ps[..last], last - 1);
      assert Before(version, addrs, ps[last - 1], ps[last]);
    } else {
      i := |Dedup(ps[..last])|;
    }
  }

  ghost predicate FirstAt(version: Version, addrs: seq<Addr>, p: Point, q: Point) {
    && p.node < |addrs| && q.node < |addrs|
    && p.hash == q.hash && Before(version, addrs, p, q)
  }

  // ----- What building promises -----

  /** `c` is a ring that building from `buckets` may give, whatever the sort does with ties. */
  ghost predicate Builds(buckets: seq<Bucket>, version: Version, crc: Crc, c: Continuum) {
    && c.addrs == Nodes(buckets)
    && exists sorted :: IsSortOf(version, c.addrs, Points(buckets, version, crc), sorted) && c.ring == Dedup(sorted)
  }

  /** The ring comes from points in proportion to the weights; sorting and deduplication aside. */
  ghost predicate RingIsWeighted(buckets: seq<Bucket>, version: Version, crc: Crc, c: Continuum) {
    exists points, sorted {:trigger IsSortOf(version, c.addrs, points, sorted)} ::
      Weighted(buckets, version, crc, points) && IsSortOf(version, c.addrs, points, sorted) && c.ring == Dedup(sorted)
  }

  lemma {:induction false} BuiltIsWeighted(buckets: seq<Bucket>, version: Version, crc: Crc, c: Continuum)
    requires |buckets| <= 0x1_0000 && Builds(buckets, version, crc, c)
    ensures RingIsWeighted(buckets, version, crc, c)
  {
    PointsAreWeighted(buckets, version, crc);
  }

  /** The address of a ring point. */
  function AddrAt(c: Continuum, i: nat): Addr
    requires i < |c.ring| && NodesKnown(c.ring, c.addrs)
  {
    c.addrs[c.ring[i].node]
  }

  function ClaimAt(c: Continuum, i: nat): Claim
    requires i < |c.ring| && NodesKnown(c.ring, c.addrs)
  {
    Claim(AddrAt(c, i), c.ring[i].hash)
  }

  /** The claimed hash is in the ring, under its smallest holder if `smallest`. */
  ghost predicate Represented(c: Continuum, smallest: bool, q: Claim)
    requires NodesKnown(c.ring, c.addrs)
  {
    exists i: nat :: i < |c.ring| && c.ring[i].hash == q.hash && (smallest ==> AddrAt(c, i) <= q.addr)
  }

  ghost predicate Represents(c: Continuum, claims: iset<Claim>, smallest: bool) {
    && NodesKnown(c.ring, c.addrs)
    && StrictlyIncreasing(c.ring)
    && (forall i | 0 <= i < |c.ring| :: ClaimAt(c, i) in claims)
    && (forall q | q in claims :: Represented(c, smallest, q))
  }

  lemma {:induction false} PointIsHeld(buckets: seq<Bucket>, version: Version, crc: Crc, p: Point)
    requires |buckets| <= 0x1_0000 && p in Points(buckets, version, crc)
    ensures p.node < |buckets| && p.hash in Chain(crc, buckets[p.node].node, Count(buckets[p.node], version))
  {
    var i := |buckets| - 1;
    if p in Points(buckets[..i], version, crc) {
      PointIsHeld(buckets[..i], version, crc, p);
    } else {
      assert Index16(i) == i;
    }
  }

  lemma {:induction false} HeldHasPoint(buckets: seq<Bucket>, version: Version, crc: Crc, i: nat, h: Hash)
    requires i < |buckets| <= 0x1_0000 && h in Chain(crc, buckets[i].node, Count(buckets[i], version))
    ensures Point(i, h) in Points(buckets, version, crc)
  {
    var last := |buckets| - 1;
    if i < last {
      HeldHasPoint(buckets[..last], version, crc, i, h);
    } else {
      var hashes := Chain(crc, buckets[last].node, Count(buckets[last], version));
      var mine := Tagged(Index16(last), hashes);
      var j :| 0 <= j < |hashes| && hashes[j] == h;
      assert Index16(last) == last;
      assert mine[j] == Point(i, h);
    }
  }

  lemma {:induction false} SortedRingRepresents(
      buckets: seq<Bucket>, version: Version, crc: Crc, c: Continuum, sorted: seq<Point>)
    requires |buckets| <= 0x1_0000 && c.addrs == Nodes(buckets) && c.ring == Dedup(sorted)
    requires IsSortOf(version, c.addrs, Points(buckets, version, crc), sorted)
    ensures Represents(c, Claims(buckets, version, crc), version.V2?)
  {
    var claims := Claims(buckets, version, crc);
    DedupIncreases(version, c.addrs, sorted);
    forall i | 0 <= i < |c.ring|
      ensures c.ring[i].node < |c.addrs| && Claim(c.addrs[c.ring[i].node], c.ring[i].hash) in claims
    {
      assert c.ring[i] in Dedup(sorted);
      KeptIsClaimed(buckets, version, crc, sorted, c.ring[i]);
    }
    forall q | q in claims
      ensures Represented(c, version.V2?, q)
    {
      ClaimIsRepresented(buckets, version, crc, c, sorted, q);
    }
  }

  /** Whatever the sort did with ties, the ring holds one point for each hash anyone claims. */
  lemma {:induction false} BuiltRingRepresents(buckets: seq<Bucket>, version: Version, crc: Crc, c: Continuum)
    requires |buckets| <= 0x1_0000 && Builds(buckets, version, crc, c)
    ensures Represents(c, Claims(buckets, version, crc), version.V2?)
  {
    var sorted :| IsSortOf(version, c.addrs, Points(buckets, version, crc), sorted) && c.ring == Dedup(sorted);
    SortedRingRepresents(buckets, version, crc, c, sorted);
  }

  lemma {:induction false} KeptIsClaimed(buckets: seq<Bucket>, version: Version, crc: Crc, sorted: seq<Point>, p: Point)
    requires |buckets| <= 0x1_0000 && IsSortOf(version, Nodes(buckets), Points(buckets, version, crc), sorted)
            && p in sorted
    ensures p.node < |Nodes(buckets)| && Claim(Nodes(buckets)[p.node], p.hash) in Claims(buckets, version, crc)
  {
    assert p in multiset(sorted);
    PointIsHeld(buckets, version, crc, p);
    assert buckets[p.node] in buckets;
  }

  lemma {:induction false} ClaimIsRepresented(
      buckets: seq<Bucket>, version: Version, crc: Crc, c: Continuum, sorted: seq<Point>, q: Claim)
    requires |buckets| <= 0x1_0000 && c.addrs == Nodes(buckets) && NodesKnown(c.ring, c.addrs)
    requires IsSortOf(version, c.addrs, Points(buckets, version, crc), sorted) && c.ring == Dedup(sorted)
    requires q in Claims(buckets, version, crc)
    ensures Represented(c, version.V2?, q)
  {
    var b :| b in buckets && b.node == q.addr && q.hash in Chain(crc, b.node, Count(b, version));
    var n :| 0 <= n < |buckets| && buckets[n] == b;
    HeldHasPoint(buckets, version, crc, n, q.hash);
    assert Point(n, q.hash) in multiset(sorted);
    var j :| 0 <= j < |sorted| && sorted[j] == Point(n, q.hash);
    var i := DedupKeepsFirst(version, c.addrs, sorted, j);
  }

  // ----- Lookup -----

  /** How many ring points lie below `hash`: where the search would insert it. */
  function InsertAt(ring: seq<Point>, hash: Hash): (r: nat)
    ensures r <= |ring|
  {
    if ring == [] || ring[|ring| - 1].hash < hash then |ring| else InsertAt(ring[..|ring| - 1], hash)
  }

  function NodeIdx(ring: seq<Point>, hash: Hash): (r: nat)
    ensures ring != [] ==> r < |ring|
  {
    var i := InsertAt(ring, hash);
    if i == |ring| then 0 else i
  }

  lemma {:induction false} InsertAtSplits(ring: seq<Point>, hash: Hash)
    requires StrictlyIncreasing(ring)
    ensures forall i | 0 <= i < InsertAt(ring, hash) :: ring[i].hash < hash
    ensures forall i | InsertAt(ring, hash) <= i < |ring| :: hash <= ring[i].hash
  {
    if ring != [] && ring[|ring| - 1].hash >= hash {
      var shorter := ring[..|ring| - 1];
      InsertAtSplits(shorter, hash);
      assert forall i | 0 <= i < |shorter| :: ring[i] == shorter[i];
    }
  }

  function Node(c: Continuum, hash: Hash): Option<Addr>
    requires NodesKnown(c.ring, c.addrs)
  {
    if c.ring == [] then None else Some(AddrAt(c, NodeIdx(c.ring, hash)))
  }

  /** Clockwise distance from `from` to `to`. */
  function Clockwise(from: Hash, to: Hash): nat { if from <= to then to - from else to + HASHES - from }

  /** The reference: the nearest claim clockwise, and of equally near ones the smallest address. */
  ghost predicate Owns(claims: iset<Claim>, hash: Hash, p: Claim, smallest: bool) {
    && p in claims
    && forall q | q in claims :: NoCloser(hash, p, q, smallest)
  }

  predicate NoCloser(hash: Hash, p: Claim, q: Claim, smallest: bool) {
    Clockwise(hash, p.hash) <= Clockwise(hash, q.hash) && (smallest && p.hash == q.hash ==> p.addr <= q.addr)
  }

  /** The ring position reached from `idx` after `k` steps of the iterator. */
  function Visit(ring: seq<Point>, idx: nat, k: nat): (r: nat)
    requires idx < |ring|
    ensures r < |ring|
  {
    if k == 0 then idx
    else
      var i := Visit(ring, idx, k - 1);
      if i + 1 == |ring| then 0 else i + 1
  }

  lemma {:induction false} VisitUnrolled(ring: seq<Point>, idx: nat, k: nat)
    requires idx < |ring| && k <= |ring|
    ensures Visit(ring, idx, k) == if idx + k < |ring| then idx + k else idx + k - |ring|
  {
    if k != 0 { VisitUnrolled(ring, idx, k - 1); }
  }

  /** The iterator walks away from the key: each step is farther clockwise than the last. */
  lemma {:induction false} VisitsGoClockwise(ring: seq<Point>, hash: Hash, j: nat, k: nat)
    requires ring != [] && StrictlyIncreasing(ring) && j < k < |ring|
    ensures var idx := NodeIdx(ring, hash);
            Clockwise(hash, ring[Visit(ring, idx, j)].hash) < Clockwise(hash, ring[Visit(ring, idx, k)].hash)
  {
    InsertAtSplits(ring, hash);
    VisitUnrolled(ring, NodeIdx(ring, hash), j);
    VisitUnrolled(ring, NodeIdx(ring, hash), k);
  }

  /** How many steps from `idx` reach position `i`. */
  function StepsTo(ring: seq<Point>, idx: nat, i: nat): nat
    requires idx < |ring| && i < |ring|
  {
    if idx <= i then i - idx else i + |ring| - idx
  }

  /** Any `len` consecutive steps visit every ring point once and come back to the start. */
  lemma {:induction false} FullTurn(ring: seq<Point>, idx: nat)
    requires ring != [] && idx < |ring|
    ensures forall i | 0 <= i < |ring| :: StepsTo(ring, idx, i) < |ring| && Visit(ring, idx, StepsTo(ring, idx, i)) == i
    ensures forall j, k | 0 <= j < k < |ring| :: Visit(ring, idx, j) != Visit(ring, idx, k)
    ensures Visit(ring, idx, |ring|) == idx
  {
    forall i | 0 <= i < |ring|
      ensures StepsTo(ring, idx, i) < |ring| && Visit(ring, idx, StepsTo(ring, idx, i)) == i
    {
      VisitUnrolled(ring, idx, StepsTo(ring, idx, i));
    }
    forall j, k | 0 <= j < k < |ring| ensures Visit(ring, idx, j) != Visit(ring, idx, k) {
      VisitUnrolled(ring, idx, j);
      VisitUnrolled(ring, idx, k);
    }
    VisitUnrolled(ring, idx, |ring|);
  }

  /** Lookup finds the owner, and finds one exactly when anyone claims a point. */
  lemma {:induction false} LookupFindsOwner(c: Continuum, claims: iset<Claim>, smallest: bool, hash: Hash)
    requires Represents(c, claims, smallest)
    ensures c.ring != [] ==> Owns(claims, hash, ClaimAt(c, NodeIdx(c.ring, hash)), smallest)
    ensures c.ring == [] <==> claims == iset{}
  {
    if c.ring == [] {
      assert forall q | q in claims :: Represented(c, smallest, q);
      assert claims == iset{};
    } else {
      var idx := NodeIdx(c.ring, hash);
      assert ClaimAt(c, idx) in claims;
      forall q | q in claims ensures NoCloser(hash, ClaimAt(c, idx), q, smallest) {
        var m := PlaceOf(c, claims, smallest, q);
        FoundIsNoFarther(c.ring, hash, m);
      }
    }
  }

  /** The ring point that stands for a claim. */
  lemma {:induction false} PlaceOf(c: Continuum, claims: iset<Claim>, smallest: bool, q: Claim) returns (m: nat)
    requires Represents(c, claims, smallest) && q in claims
    ensures m < |c.ring| && c.ring[m].hash == q.hash && (smallest ==> AddrAt(c, m) <= q.addr)
    ensures ClaimAt(c, m) in claims
  {
    assert Represented(c, smallest, q);
    m :| m < |c.ring| && c.ring[m].hash == q.hash && (smallest ==> AddrAt(c, m) <= q.addr);
  }

  lemma {:induction false} FoundIsNoFarther(ring: seq<Point>, hash: Hash, m: nat)
    requires StrictlyIncreasing(ring) && m < |ring|
    ensures
      var idx := NodeIdx(ring, hash);
      idx == m || Clockwise(hash, ring[idx].hash) < Clockwise(hash, ring[m].hash)
  {
    var idx := NodeIdx(ring, hash);
    var j := StepsTo(ring, idx, m);
    VisitUnrolled(ring, idx, j);
    if j > 0 { VisitsGoClockwise(ring, hash, 0, j); }
  }

  /** A hash that is itself a point of the ring is found there. */
  lemma {:induction false} FoundInPlace(c: Continuum, claims: iset<Claim>, smallest: bool, m: nat)
    requires Represents(c, claims, smallest) && m < |c.ring|
    ensures NodeIdx(c.ring, c.ring[m].hash) == m
  {
    FoundIsNoFarther(c.ring, c.ring[m].hash, m);
  }

  // ----- Consistency -----

  /** Distinct addresses share no point. */
  ghost predicate NoSharedPoints(claims: iset<Claim>) {
    forall p, q | p in claims && q in claims && p.hash == q.hash :: p.addr == q.addr
  }

  /** Adding claims moves a key only to one of the claims added. */
  lemma {:induction false} KeyMovesOnlyToNewClaims(
      claims: iset<Claim>, more: iset<Claim>, hash: Hash, p: Claim, q: Claim, smallest: bool)
    requires claims <= more && (smallest || NoSharedPoints(claims))
    requires Owns(claims, hash, p, smallest) && Owns(more, hash, q, smallest)
    ensures q == p || q !in claims
  {
    assert p in more;
    assert NoCloser(hash, q, p, smallest);
    if q in claims { assert NoCloser(hash, p, q, smallest); }
  }

  predicate MovesOnlyTo(c: Continuum, d: Continuum, hash: Hash, added: Addr) {
    && NodesKnown(c.ring, c.addrs) && NodesKnown(d.ring, d.addrs)
    && (Node(c, hash).Some? ==> Node(d, hash) == Node(c, hash) || Node(d, hash) == Some(added))
  }

  lemma {:induction false} ClaimsGrow(buckets: seq<Bucket>, at: nat, added: Bucket, version: Version, crc: Crc)
    requires at <= |buckets|
    ensures
      var claims, more := Claims(buckets, version, crc), Claims(buckets[..at] + [added] + buckets[at..], version, crc);
      claims <= more && forall q | q in more && q !in claims :: q.addr == added.node
  {
    var grown := buckets[..at] + [added] + buckets[at..];
    assert forall b :: b in grown <==> b in buckets || b == added;
  }

  /**
   Monotonicity: adding a bucket anywhere maps each key to its old address or to the new
   one. For V2 this needs no assumption on the hashes, collisions included; for V1 the old
   addresses must share no point, because its sort leaves ties open.
   */
  lemma {:induction false} AddingABucketMovesKeysOnlyToIt(
      buckets: seq<Bucket>, at: nat, added: Bucket, version: Version, crc: Crc, c: Continuum, d: Continuum, hash: Hash)
    requires at <= |buckets| < 0x1_0000
    requires Builds(buckets, version, crc, c) && Builds(buckets[..at] + [added] + buckets[at..], version, crc, d)
    requires version.V2? || NoSharedPoints(Claims(buckets, version, crc))
    ensures MovesOnlyTo(c, d, hash, added.node)
  {
    var grown := buckets[..at] + [added] + buckets[at..];
    var claims, more := Claims(buckets, version, crc), Claims(grown, version, crc);
    BuiltRingRepresents(buckets, version, crc, c);
    BuiltRingRepresents(grown, version, crc, d);
    ClaimsGrow(buckets, at, added, version, crc);
    if c.ring != [] {
      LookupFindsOwner(c, claims, version.V2?, hash);
      LookupFindsOwner(d, more, version.V2?, hash);
      var p, q := ClaimAt(c, NodeIdx(c.ring, hash)), ClaimAt(d, NodeIdx(d.ring, hash));
      KeyMovesOnlyToNewClaims(claims, more, hash, p, q, version.V2?);
    }
  }

  /** V2 does not depend on the order in which buckets are listed. */
  lemma {:induction false} OrderOfBucketsDoesNotMatter(
      buckets: seq<Bucket>, others: seq<Bucket>, multiple: nat, crc: Crc, c: Continuum, d: Continuum, hash: Hash)
    requires |buckets| <= 0x1_0000 && |others| <= 0x1_0000 && forall b :: b in buckets <==> b in others
    requires Builds(buckets, V2(multiple), crc, c) && Builds(others, V2(multiple), crc, d)
    ensures NodesKnown(c.ring, c.addrs) && NodesKnown(d.ring, d.addrs)
    ensures Node(c, hash) == Node(d, hash)
  {
    var claims := Claims(buckets, V2(multiple), crc);
    assert claims == Claims(others, V2(multiple), crc);
    BuiltRingRepresents(buckets, V2(multiple), crc, c);
    BuiltRingRepresents(others, V2(multiple), crc, d);
    LookupFindsOwner(c, claims, true, hash);
    LookupFindsOwner(d, claims, true, hash);
    if c.ring != [] {
      var p, q := ClaimAt(c, NodeIdx(c.ring, hash)), ClaimAt(d, NodeIdx(d.ring, hash));
      KeyMovesOnlyToNewClaims(claims, claims, hash, p, q, true);
    }
  }

  // ----- Building and walking the ring -----

  /** One way to sort: insert each point after those that come before it. */
  function InsertPoint(version: Version, addrs: seq<Addr>, sorted: seq<Point>, p: Point): seq<Point>
    requires NodesKnown(sorted, addrs) && p.node < |addrs|
  {
    if sorted == [] then [p]
    else
      var last := |sorted| - 1;
      if Before(version, addrs, sorted[last], p) then sorted + [p]
      else InsertPoint(version, addrs, sorted[..last], p) + [sorted[last]]
  }

  lemma {:induction false} InsertPermutes(version: Version, addrs: seq<Addr>, sorted: seq<Point>, p: Point)
    requires NodesKnown(sorted, addrs) && p.node < |addrs|
    ensures multiset(InsertPoint(version, addrs, sorted, p)) == multiset(sorted) + multiset{p}
  {
    if sorted != [] {
      var last := |sorted| - 1;
      assert sorted == sorted[..last] + [sorted[last]];
      if !Before(version, addrs, sorted[last], p) { InsertPermutes(version, addrs, sorted[..last], p); }
    }
  }

  lemma {:induction false} AppendKeepsSorted(version: Version, addrs: seq<Addr>, ps: seq<Point>, q: Point)
    requires NodesKnown(ps, addrs) && Sorted(version, addrs, ps) && q.node < |addrs|
    requires forall i | 0 <= i < |ps| :: Before(version, addrs, ps[i], q)
    ensures NodesKnown(ps + [q], addrs) && Sorted(version, addrs, ps + [q])
  {
  }

  lemma {:induction false} InsertKeepsSorted(version: Version, addrs: seq<Addr>, sorted: seq<Point>, p: Point)
    requires NodesKnown(sorted, addrs) && Sorted(version, addrs, sorted) && p.node < |addrs|
    ensures var r := InsertPoint(version, addrs, sorted, p);
            && NodesKnown(r, addrs) && Sorted(version, addrs, r)
            && forall i | 0 <= i < |r| :: r[i] == p || r[i] in sorted
  {
    if sorted != [] {
      var last := sorted[|sorted| - 1];
      var init := sorted[..|sorted| - 1];
      if Before(version, addrs, last, p) {
        forall i | 0 <= i < |sorted| ensures Before(version, addrs, sorted[i], p) {
          if i < |sorted| - 1 { assert Before(version, addrs, sorted[i], last); }
        }
        AppendKeepsSorted(version, addrs, sorted, p);
      } else {
        InsertKeepsSorted(version, addrs, init, p);
        AppendKeepsSorted(version, addrs, InsertPoint(version, addrs, init, p), last);
      }
    }
  }

  class RingBuilder {
    const version: Version
    var ring: seq<Point>

    constructor (version: Version)
      ensures this.version == version && ring == []
    {
      this.version := version;
      ring := [];
    }

    method Push(node: nat, hash: Hash)
      modifies this
      ensures ring == old(ring) + [Point(node, hash)]
    {
      ring := ring + [Point(node, hash)];
    }

    method Sort(addrs: seq<Addr>)
      requires NodesKnown(ring, addrs)
      modifies this
      ensures exists sorted :: IsSortOf(version, addrs, old(ring), sorted) && ring == Dedup(sorted)
    {
      var sorted: seq<Point> := [];
      var i := 0;
      while i < |ring|
        invariant 0 <= i <= |ring| && ring == old(ring)
        invariant NodesKnown(sorted, addrs) && Sorted(version, addrs, sorted)
        invariant multiset(sorted) == multiset(ring[..i])
      {
        assert ring[..i + 1] == ring[..i] + [ring[i]];
        InsertKeepsSorted(version, addrs, sorted, ring[i]);
        InsertPermutes(version, addrs, sorted, ring[i]);
        sorted := InsertPoint(version, addrs, sorted, ring[i]);
        i := i + 1;
      }
      assert ring[..i] == ring;
      ring := Dedup(sorted);
    }
  }

  /** The points of one bucket: each hash feeds the next. */
  method PushBucket(builder: RingBuilder, node: nat, bucket: Bucket, crc: Crc)
    modifies builder
    ensures builder.ring ==
            old(builder.ring) + Tagged(Index16(node), Chain(crc, bucket.node, Count(bucket, builder.version)))
    ensures
      exists hashes ::
        && HasItsShare(bucket, builder.version, crc, hashes)
        && builder.ring == old(builder.ring) + Tagged(Index16(node), hashes)
  {
    ChainIsFed(crc, bucket.node, Count(bucket, builder.version));
    var prev: Hash := 0;
    var n := 0;
    while n < Count(bucket, builder.version)
      invariant 0 <= n <= Count(bucket, builder.version)
      invariant prev == if n == 0 then 0 else LastOf(crc, bucket.node, n)
      invariant builder.ring == old(builder.ring) + Tagged(Index16(node), Chain(crc, bucket.node, n))
    {
      ChainLength(crc, bucket.node, n);
      var hash := crc(bucket.node, prev);
      builder.Push(Index16(node), hash);
      prev := hash;
      n := n + 1;
    }
  }

  lemma {:induction false} OneMoreBucket(buckets: seq<Bucket>, version: Version, crc: Crc, i: nat)
    requires i < |buckets|
    ensures Nodes(buckets[..i + 1]) == Nodes(buckets[..i]) + [buckets[i].node]
    ensures Points(buckets[..i + 1], version, crc) ==
            Points(buckets[..i], version, crc)
                + Tagged(Index16(i), Chain(crc, buckets[i].node, Count(buckets[i], version)))
  {
    assert buckets[..i + 1][..i] == buckets[..i];
  }

  /** Point counts must fit the 32 bits in which the source computes them. */
  method NewWithVersion(buckets: seq<Bucket>, version: Version, crc: Crc) returns (c: Continuum)
    requires |buckets| <= 0x1_0000
    ensures Builds(buckets, version, crc, c)
    ensures RingIsWeighted(buckets, version, crc, c)
  {
    var builder := new RingBuilder(version);
    var addrs: seq<Addr> := [];
    var i := 0;
    while i < |buckets|
      invariant 0 <= i <= |buckets| && builder.version == version && fresh(builder)
      invariant addrs == Nodes(buckets[..i]) && builder.ring == Points(buckets[..i], version, crc)
    {
      OneMoreBucket(buckets, version, crc, i);
      addrs := addrs + [buckets[i].node];
      PushBucket(builder, |addrs| - 1, buckets[i], crc);
      i := i + 1;
    }
    assert buckets[..i] == buckets;
    PointsKnown(buckets, version, crc);
    builder.Sort(addrs);
    c := Continuum(builder.ring, addrs);
    BuiltIsWeighted(buckets, version, crc, c);
  }

  lemma {:induction false} PointsKnown(buckets: seq<Bucket>, version: Version, crc: Crc)
    requires |buckets| <= 0x1_0000
    ensures NodesKnown(Points(buckets, version, crc), Nodes(buckets))
  {
    var points := Points(buckets, version, crc);
    forall k | 0 <= k < |points| ensures points[k].node < |buckets| {
      PointIsHeld(buckets, version, crc, points[k]);
    }
  }

  function LastOf(crc: Crc, a: Addr, n: nat): Hash
    requires n > 0
  {
    ChainLength(crc, a, n);
    Chain(crc, a, n)[n - 1]
  }

  class NodeIterator {
    const continuum: Continuum
    var idx: nat

    constructor (c: Continuum, hash: Hash)
      ensures continuum == c && idx == NodeIdx(c.ring, hash)
    {
      continuum := c;
      idx := NodeIdx(c.ring, hash);
    }

    method Next() returns (a: Option<Addr>)
      requires NodesKnown(continuum.ring, continuum.addrs)
      modifies this
      ensures old(idx) >= |continuum.ring| ==> a == None && idx == old(idx)
      ensures old(idx) < |continuum.ring| ==>
              a == Some(AddrAt(continuum, old(idx))) && idx == Visit(continuum.ring, old(idx), 1)
    {
      if idx < |continuum.ring| {
        var node := continuum.ring[idx].node;
        idx := (idx + 1) % |continuum.ring|;
        return Some(continuum.addrs[node]);
      }
      a := None;
    }
  }
}
