/**
 What an unstable sort leaves open: under V1 any address that claims a shared point can be
 the one that keeps it, so monotonicity and failover hold for every ring that may be built
 iff no point is shared.
 */
module KetamaTies {
  import opened Basics
  import opened Ketama
  import opened KetamaFailover

  // ----- A ring that keeps a chosen claim -----

  lemma {:induction false} SortExists(version: Version, addrs: seq<Addr>, ps: seq<Point>) returns (sorted: seq<Point>)
    requires NodesKnown(ps, addrs)
    ensures IsSortOf(version, addrs, ps, sorted)
    decreases |ps|
  {
    if ps == [] {
      sorted := [];
    } else {
      var last := ps[|ps| - 1];
      var rest := SortExists(version, addrs, ps[..|ps| - 1]);
      InsertKeepsSorted(version, addrs, rest, last);
      InsertPermutes(version, addrs, rest, last);
      sorted := InsertPoint(version, addrs, rest, last);
      assert ps == ps[..|ps| - 1] + [last];
    }
  }

  /** Where the run of equal hashes around `j` begins. */
  function RunStart(ps: seq<Point>, j: nat): (i: nat)
    requires j < |ps|
    ensures i <= j && ps[i].hash == ps[j].hash && (i > 0 ==> ps[i - 1].hash != ps[i].hash)
  {
    if j == 0 || ps[j - 1].hash != ps[j].hash then j else RunStart(ps, j - 1)
  }

  function Swapped(ps: seq<Point>, i: nat, j: nat): seq<Point>
    requires i < |ps| && j < |ps|
  {
    ps[i := ps[j]][j := ps[i]]
  }

  lemma {:induction false} SwapKeepsHashes(ps: seq<Point>, i: nat, j: nat)
    requires i < |ps| && j < |ps| && ps[i].hash == ps[j].hash
    ensures |Swapped(ps, i, j)| == |ps| && multiset(Swapped(ps, i, j)) == multiset(ps)
    ensures forall k | 0 <= k < |ps| :: Swapped(ps, i, j)[k].hash == ps[k].hash
  {
  }

  /** Under V1 the points of one hash may come in any order. */
  lemma {:induction false} SwapKeepsSort(addrs: seq<Addr>, ps: seq<Point>, sorted: seq<Point>, i: nat, j: nat)
    requires IsSortOf(V1, addrs, ps, sorted) && i < |sorted| && j < |sorted| && sorted[i].hash == sorted[j].hash
    ensures IsSortOf(V1, addrs, ps, Swapped(sorted, i, j))
  {
    var t := Swapped(sorted, i, j);
    SwapKeepsHashes(sorted, i, j);
    assert NodesKnown(t, addrs);
    forall k, l | 0 <= k < l < |t| ensures Before(V1, addrs, t[k], t[l]) {
      assert Before(V1, addrs, sorted[k], sorted[l]);
    }
  }

  /** The first point of a run stays. */
  lemma {:induction false} DedupKeepsRunStart(ps: seq<Point>, i: nat)
    requires i < |ps| && (i > 0 ==> ps[i - 1].hash != ps[i].hash)
    ensures ps[i] in Dedup(ps)
    decreases |ps|
  {
    var last := |ps| - 1;
    if i < last {
      assert ps[..last][i] == ps[i] && (i > 0 ==> ps[..last][i - 1] == ps[i - 1]);
      DedupKeepsRunStart(ps[..last], i);
    } else if last > 0 {
      assert ps[last] in Dedup(ps[..last]) + [ps[last]];
    }
  }

  lemma {:induction false} SortKeeping(addrs: seq<Addr>, ps: seq<Point>, p: Point) returns (sorted: seq<Point>)
    requires NodesKnown(ps, addrs) && p in ps
    ensures IsSortOf(V1, addrs, ps, sorted) && p in Dedup(sorted)
  {
    var any := SortExists(V1, addrs, ps);
    assert p in multiset(any);
    var j :| 0 <= j < |any| && any[j] == p;
    var i := RunStart(any, j);
    sorted := Swapped(any, i, j);
    SwapKeepsSort(addrs, ps, any, i, j);
    SwapKeepsHashes(any, i, j);
    DedupKeepsRunStart(sorted, i);
  }

  /** Any claim can be the one its hash is given to. */
  lemma {:induction false} BuildKeeping(buckets: seq<Bucket>, crc: Crc, p: Claim) returns (c: Continuum)
    requires |buckets| <= 0x1_0000 && p in Claims(buckets, V1, crc)
    ensures Builds(buckets, V1, crc, c) && NodesKnown(c.ring, c.addrs) && StrictlyIncreasing(c.ring)
    ensures NodePoint(c, p.hash) == Some(p)
  {
    var b :| b in buckets && b.node == p.addr && p.hash in Chain(crc, b.node, Count(b, V1));
    var n :| 0 <= n < |buckets| && buckets[n] == b;
    HeldHasPoint(buckets, V1, crc, n, p.hash);
    PointsKnown(buckets, V1, crc);
    var sorted := SortKeeping(Nodes(buckets), Points(buckets, V1, crc), Point(n, p.hash));
    c := Continuum(Dedup(sorted), Nodes(buckets));
    assert Builds(buckets, V1, crc, c);
    BuiltRingRepresents(buckets, V1, crc, c);
    var m :| 0 <= m < |c.ring| && c.ring[m] == Point(n, p.hash);
    FoundInPlace(c, Claims(buckets, V1, crc), false, m);
  }

  // ----- Monotonicity -----

  function Grown(buckets: seq<Bucket>, at: nat, added: Bucket): seq<Bucket>
    requires at <= |buckets|
  {
    buckets[..at] + [added] + buckets[at..]
  }

  /** Two old addresses that share a point: some key may move from one to the other. */
  lemma {:induction false} SharedPointLetsAKeyMove(
      buckets: seq<Bucket>, at: nat, added: Bucket, crc: Crc, p: Claim, q: Claim)
      returns (c: Continuum, d: Continuum)
    requires at <= |buckets| < 0x1_0000
    requires p in Claims(buckets, V1, crc) && q in Claims(buckets, V1, crc) && p.hash == q.hash && p.addr != q.addr
    ensures Builds(buckets, V1, crc, c) && Builds(Grown(buckets, at, added), V1, crc, d)
    ensures !MovesOnlyTo(c, d, p.hash, added.node)
  {
    ClaimsGrow(buckets, at, added, V1, crc);
    var before, after := if q.addr != added.node then p else q, if q.addr != added.node then q else p;
    c := BuildKeeping(buckets, crc, before);
    d := BuildKeeping(Grown(buckets, at, added), crc, after);
  }

  /**
   V1 maps keys to their old address or the new bucket, whatever the sort does, iff no two old
   addresses share a point.
   */
  lemma {:induction false} V1MovesKeysOnlyToTheNewBucketIff(buckets: seq<Bucket>, at: nat, added: Bucket, crc: Crc)
    requires at <= |buckets| < 0x1_0000
    ensures
      NoSharedPoints(Claims(buckets, V1, crc)) <==>
      forall c, d, hash: Hash {:trigger MovesOnlyTo(c, d, hash, added.node)} ::
        Builds(buckets, V1, crc, c) && Builds(Grown(buckets, at, added), V1, crc, d) ==>
            MovesOnlyTo(c, d, hash, added.node)
  {
    var claims := Claims(buckets, V1, crc);
    if NoSharedPoints(claims) {
      forall c, d, hash: Hash | Builds(buckets, V1, crc, c) && Builds(Grown(buckets, at, added), V1, crc, d)
        ensures MovesOnlyTo(c, d, hash, added.node)
      {
        AddingABucketMovesKeysOnlyToIt(buckets, at, added, V1, crc, c, d, hash);
      }
    } else {
      var p, q :| p in claims && q in claims && p.hash == q.hash && p.addr != q.addr;
      var c, d := SharedPointLetsAKeyMove(buckets, at, added, crc, p, q);
      assert !MovesOnlyTo(c, d, p.hash, added.node);
    }
  }

  // ----- Failover -----

  lemma {:induction false} SharedPointLetsFailoverDiffer(buckets: seq<Bucket>, x: Addr, crc: Crc, p: Claim, q: Claim)
      returns (c: Continuum, d: Continuum)
    requires |buckets| <= 0x1_0000
    requires p in Claims(buckets, V1, crc) && q in Claims(buckets, V1, crc) && p.hash == q.hash && p.addr != q.addr
    requires q.addr != x
    ensures Builds(buckets, V1, crc, c) && Builds(Remove(buckets, x), V1, crc, d)
    ensures !FindsTheSame(c, d, p.hash, x)
  {
    RemoveIsWithout(buckets, x, V1, crc);
    c := BuildKeeping(buckets, crc, p);
    d := BuildKeeping(Remove(buckets, x), crc, q);
    if p.addr == x {
      var i := NodeIdx(c.ring, p.hash);
      assert c.ring[i].hash == p.hash && AddrAt(c, i) == x;
      FailoverMissesHeldPoint(c, p.hash, x, p.hash);
    } else {
      assert FailoverPoint(c, p.hash, x) == SkipTo(c, NodeIdx(c.ring, p.hash), x, 0) == Some(p);
    }
  }

  /** Under V1 failover equals rebuild for every key, whatever the sorts do, iff no point is shared at all. */
  lemma {:induction false} V1FailoverEqualsRebuildIff(buckets: seq<Bucket>, x: Addr, crc: Crc)
    requires |buckets| <= 0x1_0000
    ensures
      NoSharedPoints(Claims(buckets, V1, crc)) <==>
      forall c, d, hash: Hash {:trigger FindsTheSame(c, d, hash, x)} ::
        Builds(buckets, V1, crc, c) && Builds(Remove(buckets, x), V1, crc, d) ==> FindsTheSame(c, d, hash, x)
  {
    var claims := Claims(buckets, V1, crc);
    if NoSharedPoints(claims) {
      forall c, d, hash: Hash | Builds(buckets, V1, crc, c) && Builds(Remove(buckets, x), V1, crc, d)
        ensures FindsTheSame(c, d, hash, x)
      {
        BuiltPair(buckets, x, V1, crc, c, d);
        NoSharingShows(c, d, claims, x, hash);
      }
    } else {
      var p, q :| p in claims && q in claims && p.hash == q.hash && p.addr != q.addr;
      var c, d := SharedPointLetsFailoverDiffer(
        buckets, x, crc, if q.addr != x then p else q, if q.addr != x then q else p);
      assert !FindsTheSame(c, d, p.hash, x);
    }
  }
}
