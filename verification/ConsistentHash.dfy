/** The consistent-hash ring: a sorted map from signed 32-bit positions to node addresses, searched
    clockwise. The specification orders the nodes by their clockwise distance from the key. */
module ConsistentHashing {
  import opened Common
  import Words

  const HALF := 0x8000_0000
  const FULL := 0x1_0000_0000

  type Pos = x: int | -HALF <= x < HALF

  type Ring = map<Pos, string>

  // ----- Positions -----

  /** A number as the 32-bit two's-complement integer that has its low bits. */
  function Wrap(v: int): Pos {
    (v + HALF) % FULL - HALF
  }

  /** The bytes of the key as the digits of a number in base 31. */
  function Poly(key: string): nat {
    if key == "" then 0 else 31 * Poly(key[..|key| - 1]) + key[|key| - 1] as int % 256
  }

  function Position(key: string): Pos {
    Wrap(Poly(key))
  }

  /** In numbers: the digits are the bytes of the key, the base is 31, and what does not fit into a
      signed integer of 32 bits is lost. */
  lemma PositionIs(key: string, c: char)
    ensures Poly("") == 0 && Poly(key + [c]) == 31 * Poly(key) + c as int % 256
    ensures -0x8000_0000 <= Position(key) < 0x8000_0000 && (Position(key) - Poly(key)) % 0x1_0000_0000 == 0
  {
    assert (key + [c])[..|key|] == key;
    hide Poly;
    WrapIs(Poly(key));
    hide Wrap;
  }

  lemma WrapIs(v: int)
    ensures -0x8000_0000 <= Wrap(v) < 0x8000_0000 && (Wrap(v) - v) % 0x1_0000_0000 == 0
  {
    var m := (v + HALF) / FULL;
    assert Wrap(v) - v == 0 - m * FULL;
    Multiples(0, 0 - m);
  }

  /** How far one walks clockwise, towards larger positions and round the end. */
  function Distance(from: Pos, to: Pos): (d: nat)
    ensures d < FULL
  {
    (to - from) % FULL
  }

  lemma DistanceCases(from: Pos, to: Pos)
    ensures Distance(from, to) == if from <= to then to - from else to - from + 0x1_0000_0000
  {
  }

  lemma Multiples(x: int, n: int)
    ensures (x + n * FULL) % FULL == x % FULL
  {
  }

  /** Wrapping at every step gives what wrapping once at the end gives. */
  lemma WrapStep(v: int, c: int)
    ensures Wrap(31 * Wrap(v) + c) == Wrap(31 * v + c)
  {
    var m := (v + HALF) / FULL;
    assert Wrap(v) == v - m * FULL;
    Multiples(31 * v + c + HALF, -31 * m);
  }

  // ----- The clockwise order -----

  lemma NearestOf(s: set<Pos>, from: Pos) returns (p: Pos)
    requires s != {}
    ensures p in s && forall q :: q in s ==> Distance(from, p) <= Distance(from, q)
    decreases |s|
  {
    hide Distance;
    p :| p in s;
    var rest := s - {p};
    assert forall q :: q in s ==> q in rest || q == p;
    if rest != {} {
      var y := NearestOf(rest, from);
      p := if Distance(from, p) < Distance(from, y) then p else y;
    }
  }

  lemma NearestExists(s: set<Pos>, from: Pos)
    requires s != {}
    ensures exists p :: p in s && forall q :: q in s ==> Distance(from, p) <= Distance(from, q)
  {
    hide Distance;
    var p := NearestOf(s, from);
  }

  ghost function Nearest(s: set<Pos>, from: Pos): (p: Pos)
    requires s != {}
    ensures p in s && forall q :: q in s ==> Distance(from, p) <= Distance(from, q)
  {
    NearestExists(s, from);
    var p :| p in s && forall q :: q in s ==> Distance(from, p) <= Distance(from, q);
    p
  }

  /** The positions in the order in which one meets them clockwise. */
  ghost function Clockwise(s: set<Pos>, from: Pos): (order: seq<Pos>)
    ensures |order| == |s| && forall p :: p in order <==> p in s
    decreases |s|
  {
    if s == {} then []
    else
      var p := Nearest(s, from);
      [p] + Clockwise(s - {p}, from)
  }

  ghost predicate Increasing(order: seq<Pos>, from: Pos) {
    forall i: nat, j: nat :: i < j < |order| ==> Distance(from, order[i]) < Distance(from, order[j])
  }

  lemma {:induction false} ClockwiseIncreases(s: set<Pos>, from: Pos)
    ensures Increasing(Clockwise(s, from), from)
    decreases |s|
  {
    if s != {} {
      var p := Nearest(s, from);
      var rest := Clockwise(s - {p}, from);
      ClockwiseIncreases(s - {p}, from);
      forall j: nat | j < |rest|
        ensures Distance(from, p) < Distance(from, rest[j])
      {
        assert rest[j] in s - {p};
        DistanceCases(from, p);
        DistanceCases(from, rest[j]);
      }
    }
  }

  lemma NearestFirst(order: seq<Pos>, s: set<Pos>, from: Pos)
    requires Increasing(order, from) && order != [] && forall p :: p in order <==> p in s
    ensures order[0] in s && order[0] == Nearest(s, from)
  {
    assert order[0] in s;
    var p := Nearest(s, from);
    hide Distance, Nearest;
    assert forall j: nat :: 0 < j < |order| ==> Distance(from, order[0]) < Distance(from, order[j]);
    var i: nat :| i < |order| && order[i] == p;
  }

  lemma RestIncreases(order: seq<Pos>, s: set<Pos>, from: Pos)
    requires Increasing(order, from) && order != [] && forall p :: p in order <==> p in s
    ensures Increasing(order[1..], from) && forall p :: p in order[1..] <==> p in s - {order[0]}
  {
    hide Distance;
    forall q
      ensures q in order[1..] <==> q in s - {order[0]}
    {
      if q in order[1..] {
        var i: nat :| i < |order[1..]| && order[1..][i] == q;
        assert Distance(from, order[0]) < Distance(from, order[i + 1]);
      }
    }
  }

  /** Only one order of the positions increases in distance. */
  lemma {:induction false} OnlyOrder(order: seq<Pos>, s: set<Pos>, from: Pos)
    requires Increasing(order, from) && forall p :: p in order <==> p in s
    ensures order == Clockwise(s, from)
    decreases |order|
  {
    hide Increasing, Nearest;
    if order == [] {
      assert s == {};
    } else {
      NearestFirst(order, s, from);
      RestIncreases(order, s, from);
      OnlyOrder(order[1..], s - {order[0]}, from);
      assert order == [order[0]] + order[1..];
    }
  }

  function Without<T(==)>(s: seq<T>, x: T): seq<T> {
    if s == [] then [] else (if s[0] == x then [] else [s[0]]) + Without(s[1..], x)
  }

  lemma {:induction false} NothingToDrop<T>(s: seq<T>, x: T)
    requires x !in s
    ensures Without(s, x) == s
  {
    if s != [] {
      NothingToDrop(s[1..], x);
    }
  }

  lemma {:induction false} OneMorePosition(s: set<Pos>, p: Pos, from: Pos)
    requires p !in s
    ensures Without(Clockwise(s + {p}, from), p) == Clockwise(s, from)
    decreases |s|
  {
    var more := s + {p};
    var first := Nearest(more, from);
    var rest := Clockwise(more - {first}, from);
    assert Clockwise(more, from) == [first] + rest;
    if first == p {
      assert more - {p} == s;
      NothingToDrop(rest, p);
    } else {
      DistanceCases(from, first);
      DistanceCases(from, Nearest(s, from));
      assert first == Nearest(s, from);
      assert more - {first} == s - {first} + {p};
      OneMorePosition(s - {first}, p, from);
    }
    assert ([first] + rest)[1..] == rest;
  }

  // ----- The nodes for a key -----

  function Addresses(ring: Ring, order: seq<Pos>): (nodes: seq<string>)
    requires forall p :: p in order ==> p in ring
    ensures |nodes| == |order| && forall i :: 0 <= i < |order| ==> nodes[i] == ring[order[i]]
  {
    if order == [] then [] else [ring[order[0]]] + Addresses(ring, order[1..])
  }

  /** All nodes in clockwise order from the key. */
  ghost function Order(ring: Ring, key: string): (nodes: seq<string>)
    ensures |nodes| == |ring|
  {
    Addresses(ring, Clockwise(ring.Keys, Position(key)))
  }

  function Limit(k: int, n: nat): (m: nat)
    ensures m <= n
  {
    if k <= 0 then 0 else if k < n then k else n
  }

  /** The first k nodes, as far as there are so many. */
  ghost function Replicas(ring: Ring, key: string, k: int): seq<string> {
    Order(ring, key)[..Limit(k, |ring|)]
  }

  // ----- Membership -----

  /** Every address sits at its own hash. */
  ghost predicate WellPlaced(ring: Ring) {
    forall p :: p in ring ==> Position(ring[p]) == p
  }

  ghost predicate Present(ring: Ring, address: string) {
    Position(address) in ring && ring[Position(address)] == address
  }

  function Added(ring: Ring, address: string): Ring {
    ring[Position(address) := address]
  }

  function Removed(ring: Ring, address: string): Ring {
    ring - {Position(address)}
  }

  lemma MembershipKeepsPlacement(ring: Ring, address: string)
    requires WellPlaced(ring)
    ensures WellPlaced(Added(ring, address)) && WellPlaced(Removed(ring, address))
  {
  }

  /** A well-placed ring is determined by the set of its nodes, so the order in which clients
      learn of them does not matter. */
  lemma SameNodesSameRing(r1: Ring, r2: Ring)
    requires WellPlaced(r1) && WellPlaced(r2)
    requires forall a :: Present(r1, a) <==> Present(r2, a)
    ensures r1 == r2
  {
    forall p | p in r1
      ensures p in r2 && r2[p] == r1[p]
    {
      assert Present(r1, r1[p]);
    }
    forall p | p in r2
      ensures p in r1
    {
      assert Present(r2, r2[p]);
    }
  }

  // ----- What a replica list is -----

  lemma OrderAt(ring: Ring, key: string)
    requires WellPlaced(ring)
    ensures forall i: nat :: i < |ring| ==>
      Present(ring, Order(ring, key)[i]) && Position(Order(ring, key)[i]) == Clockwise(ring.Keys, Position(key))[i]
    ensures forall a :: Present(ring, a) ==> a in Order(ring, key)
  {
    var order := Clockwise(ring.Keys, Position(key));
    hide Position, Clockwise;
    assert |ring.Keys| == |ring|;
    forall i: nat | i < |ring|
      ensures Position(Order(ring, key)[i]) == order[i] && Present(ring, Order(ring, key)[i])
    {
      assert order[i] in ring.Keys;
    }
    forall a | Present(ring, a)
      ensures a in Order(ring, key)
    {
      assert Position(a) in order;
      var i: nat :| i < |order| && order[i] == Position(a);
      assert Order(ring, key)[i] == a;
    }
  }

  ghost predicate Nearer(key: string, a: string, b: string) {
    Distance(Position(key), Position(a)) < Distance(Position(key), Position(b))
  }

  ghost predicate Ranked(nodes: seq<string>, key: string) {
    forall i: nat, j: nat :: i < j < |nodes| ==> Nearer(key, nodes[i], nodes[j])
  }

  lemma OrderIsRanked(ring: Ring, key: string)
    requires WellPlaced(ring)
    ensures Ranked(Order(ring, key), key)
  {
    OrderAt(ring, key);
    ClockwiseIncreases(ring.Keys, Position(key));
    hide Position, Clockwise, Order, Distance, Present;
  }

  /** Exactly min(max(k, 0), n) nodes of the ring at increasing clockwise distance, hence all
      distinct, and every node that is left out is further away than those listed. */
  lemma ReplicasAreNearest(ring: Ring, key: string, k: int)
    requires WellPlaced(ring)
    ensures |Replicas(ring, key, k)| == if k <= 0 then 0 else if k < |ring| then k else |ring|
    ensures Ranked(Replicas(ring, key, k), key)
    ensures forall a :: a in Replicas(ring, key, k) ==> Present(ring, a)
    ensures forall a, b :: a in Replicas(ring, key, k) && Present(ring, b) && b !in Replicas(ring, key, k) ==>
              Nearer(key, a, b)
  {
    LimitIs(k, |ring|);
    hide *;
    OrderAt(ring, key);
    OrderIsRanked(ring, key);
    ReplicasDef(ring, key, k);
    RankedPrefix(Order(ring, key), key, Limit(k, |ring|));
  }

  lemma LimitIs(k: int, n: nat)
    ensures Limit(k, n) == if k <= 0 then 0 else if k < n then k else n
  {
  }

  lemma RankedPrefix(order: seq<string>, key: string, m: nat)
    requires m <= |order| && Ranked(order, key)
    ensures Ranked(order[..m], key)
    ensures forall a, b :: a in order[..m] && b in order && b !in order[..m] ==> Nearer(key, a, b)
  {
    hide Nearer;
    assert forall i: nat :: i < m ==> order[i] in order[..m];
  }

  lemma RankedIsDistinct(nodes: seq<string>, key: string)
    requires Ranked(nodes, key)
    ensures forall i: nat, j: nat :: i < j < |nodes| ==> nodes[i] != nodes[j]
  {
    forall i: nat, j: nat | i < j < |nodes|
      ensures nodes[i] != nodes[j]
    {
      assert Nearer(key, nodes[i], nodes[j]);
    }
  }

  /** The list for k is a prefix of the list for k + 1. */
  lemma ReplicasGrow(ring: Ring, key: string, k: int)
    ensures Replicas(ring, key, k) <= Replicas(ring, key, k + 1)
    ensures Replicas(ring, key, k) <= Order(ring, key)
  {
  }

  // ----- Disruption -----

  lemma {:induction false} DropAddress(ring: Ring, address: string, order: seq<Pos>)
    requires WellPlaced(ring) && Position(address) !in ring
    requires forall p :: p in order ==> p in Added(ring, address)
    ensures forall p :: p in Without(order, Position(address)) ==> p in ring
    ensures Without(Addresses(Added(ring, address), order), address) ==
            Addresses(ring, Without(order, Position(address)))
    decreases |order|
  {
    if order != [] {
      DropAddress(ring, address, order[1..]);
      var nodes := Addresses(Added(ring, address), order);
      assert nodes[1..] == Addresses(Added(ring, address), order[1..]);
      assert order[0] in Added(ring, address);
    }
  }

  /** Adding a node at a fresh position inserts it and changes nothing else in any key's order. */
  lemma AddOnlyInserts(ring: Ring, address: string, key: string)
    requires WellPlaced(ring) && Position(address) !in ring
    ensures Without(Order(Added(ring, address), key), address) == Order(ring, key)
  {
    var p := Position(address);
    assert Added(ring, address).Keys == ring.Keys + {p};
    OneMorePosition(ring.Keys, p, Position(key));
    DropAddress(ring, address, Clockwise(ring.Keys + {p}, Position(key)));
  }

  lemma {:induction false} WithoutPrefix<T>(s: seq<T>, x: T, m: nat)
    requires m <= |s| && forall i: nat, j: nat :: i < j < |s| ==> s[i] != s[j]
    ensures Without(s[..m], x) <= Without(s, x)
    ensures |Without(s[..m], x)| == if x in s[..m] then m - 1 else m
  {
    if m > 0 {
      assert s[..m][1..] == s[1..][..m - 1];
      assert s[..m] == [s[0]] + s[1..][..m - 1];
      if s[0] == x {
        NothingToDrop(s[1..][..m - 1], x);
      }
      WithoutPrefix(s[1..], x, m - 1);
    }
  }

  /** The disruption bound for every k: without the new node, the new list is the old one or
      the old one but its last node. */
  lemma DisruptionBound(ring: Ring, address: string, key: string, k: int)
    requires WellPlaced(ring) && Position(address) !in ring
    ensures var now := Replicas(Added(ring, address), key, k);
            && Without(now, address) <= Order(ring, key)
            && Without(now, address) == Replicas(ring, key, if address in now then k - 1 else k)
  {
    hide *;
    var more := Added(ring, address);
    MembershipKeepsPlacement(ring, address);
    AddOnlyInserts(ring, address, key);
    AddedIsPresent(ring, address);
    OrderAt(more, key);
    OrderIsRanked(more, key);
    RankedIsDistinct(Order(more, key), key);
    PrefixWithout(Order(more, key), Order(ring, key), address, k, |ring|);
    ReplicasDef(ring, key, if address in Replicas(more, key, k) then k - 1 else k);
    ReplicasDef(more, key, k);
  }

  lemma AddedIsPresent(ring: Ring, address: string)
    ensures Present(Added(ring, address), address)
    ensures Position(address) !in ring ==> |Added(ring, address)| == |ring| + 1
  {
  }

  lemma ReplicasDef(ring: Ring, key: string, k: int)
    ensures Replicas(ring, key, k) == Order(ring, key)[..Limit(k, |ring|)]
  {
  }

  lemma PrefixWithout(more: seq<string>, fewer: seq<string>, x: string, k: int, n: nat)
    requires x in more && Without(more, x) == fewer && |more| == n + 1 && |fewer| == n
    requires forall i: nat, j: nat :: i < j < |more| ==> more[i] != more[j]
    ensures var now := more[..Limit(k, n + 1)];
            Without(now, x) == fewer[..Limit(if x in now then k - 1 else k, n)]
  {
    WithoutPrefix(more, x, Limit(k, n + 1));
    if Limit(k, n + 1) == n + 1 {
      assert more[..Limit(k, n + 1)] == more;
    }
  }

  /** Removal undoes an addition exactly when the position was free (or held the same node). */
  lemma RemoveUndoesAddIff(ring: Ring, address: string)
    ensures Removed(Added(ring, address), address) == ring <==> Position(address) !in ring
    ensures Added(Removed(ring, address), address) == ring <==> Present(ring, address)
  {
    var p := Position(address);
    assert p !in Removed(Added(ring, address), address);
    assert forall q :: q != p ==> (q in ring <==> q in Removed(Added(ring, address), address));
    if Present(ring, address) {
      assert Added(Removed(ring, address), address) == ring;
    } else {
      assert Present(Added(Removed(ring, address), address), address);
    }
    if p !in ring {
      assert Removed(Added(ring, address), address) == ring;
    }
  }

  /** Removing a node takes it out of every key's order and changes nothing else. */
  lemma RemoveOnlyDrops(ring: Ring, address: string, key: string)
    requires WellPlaced(ring) && Present(ring, address)
    ensures Order(Removed(ring, address), key) == Without(Order(ring, key), address)
  {
    MembershipKeepsPlacement(ring, address);
    RemoveUndoesAddIff(ring, address);
    AddOnlyInserts(Removed(ring, address), address, key);
  }

  /** Two clients whose views differ by one node share a replica of every chunk when the larger
      view has two nodes or more. */
  lemma ViewsShareReplica(ring: Ring, address: string, key: string) returns (shared: string)
    requires WellPlaced(ring) && Position(address) !in ring && |ring| >= 1
    ensures shared in Replicas(ring, key, 2) && shared in Replicas(Added(ring, address), key, 2)
    ensures Present(ring, shared)
  {
    var more := Added(ring, address);
    assert more.Keys == ring.Keys + {Position(address)};
    MembershipKeepsPlacement(ring, address);
    var now := Replicas(more, key, 2);
    ReplicasAreNearest(more, key, 2);
    ReplicasAreNearest(ring, key, 2);
    DisruptionBound(ring, address, key, 2);
    shared := if now[0] == address then now[1] else now[0];
    KeptByWithout(now, address, shared);
  }

  lemma {:induction false} KeptByWithout<T>(s: seq<T>, x: T, y: T)
    requires y in s && y != x
    ensures y in Without(s, x)
  {
    if s[0] != y {
      KeptByWithout(s[1..], x, y);
    }
  }

  // ----- Collisions -----

  /** A node survives the addition of another one exactly when their positions differ. */
  lemma SurvivesAddIff(ring: Ring, address: string, other: string)
    requires WellPlaced(ring) && Present(ring, other)
    ensures Present(Added(ring, address), other) <==> other == address || Position(other) != Position(address)
  {
  }

  lemma SurvivesRemoveIff(ring: Ring, address: string, other: string)
    requires WellPlaced(ring) && Present(ring, other)
    ensures Present(Removed(ring, address), other) <==> Position(other) != Position(address)
  {
  }

  /** The order of two additions matters exactly when two different addresses collide. */
  lemma AdditionsCommuteIff(ring: Ring, a: string, b: string)
    ensures Added(Added(ring, a), b) == Added(Added(ring, b), a) <==> a == b || Position(a) != Position(b)
  {
    if a != b && Position(a) == Position(b) {
      assert Added(Added(ring, a), b)[Position(a)] == b;
      assert Added(Added(ring, b), a)[Position(a)] == a;
    } else {
      assert Added(Added(ring, a), b) == Added(Added(ring, b), a);
    }
  }

  /** Two addresses that collide: the second one silently takes the first one's place. */
  lemma Collision()
    ensures Position("Aa") == Position("BB") == 2112
    ensures Present(Added(map[], "Aa"), "Aa") && !Present(Added(Added(map[], "Aa"), "BB"), "Aa")
  {
    assert "Aa"[..1] == "A" && "BB"[..1] == "B" && "A"[..0] == "" && "B"[..0] == "";
    assert Poly("A") == 65 && Poly("B") == 66;
    assert Poly("Aa") == 2112 && Poly("BB") == 2112;
    assert Added(Added(map[], "Aa"), "BB")[2112] == "BB";
  }

  // ----- The ordered map's own operations -----

  ghost predicate Ascending(keys: seq<Pos>) {
    forall i: nat, j: nat :: i < j < |keys| ==> keys[i] < keys[j]
  }

  /** The smallest key at or above a bound. */
  function LowerBound(s: set<Pos>, bound: int): (r: Option<Pos>)
    ensures r.None? ==> forall q :: q in s ==> q < bound
    ensures r.Some? ==> r.value in s && bound <= r.value && forall q :: q in s && bound <= q ==> r.value <= q
  {
    if forall q :: q in s ==> q < bound then None
    else
      LowestExists(s, bound);
      var p :| p in s && bound <= p && forall q :: q in s && bound <= q ==> p <= q;
      Some(p)
  }

  lemma LowestOf(s: set<Pos>) returns (p: Pos)
    requires s != {}
    ensures p in s && forall q :: q in s ==> p <= q
    decreases |s|
  {
    p :| p in s;
    var rest := s - {p};
    assert forall q :: q in s ==> q in rest || q == p;
    if rest != {} {
      var y := LowestOf(rest);
      p := if p < y then p else y;
    }
  }

  lemma LowestAbove(s: set<Pos>, bound: int, some: Pos) returns (p: Pos)
    requires some in s && bound <= some
    ensures p in s && bound <= p && forall q :: q in s && bound <= q ==> p <= q
  {
    var above := set q | q in s && bound <= q;
    assert some in above;
    p := LowestOf(above);
    forall q | q in s && bound <= q
      ensures p <= q
    {
      assert q in above;
    }
  }

  lemma LowestExists(s: set<Pos>, bound: int)
    requires exists q :: q in s && bound <= q
    ensures exists p :: p in s && bound <= p && forall q :: q in s && bound <= q ==> p <= q
  {
    var some :| some in s && bound <= some;
    var p := LowestAbove(s, bound, some);
  }

  /** The smallest position that is not below `from`, or the smallest of all if there is none. */
  ghost predicate IsFirst(s: set<Pos>, from: Pos, p: Pos) {
    if from <= p then (forall q :: q in s && from <= q ==> p <= q)
    else (forall q :: q in s ==> q < from && p <= q)
  }

  /** Where a search with wrap-around ends is the nearest position clockwise. */
  lemma FoundIsNearest(s: set<Pos>, from: Pos, p: Pos)
    requires p in s && IsFirst(s, from, p)
    ensures Nearest(s, from) == p
  {
    var n := Nearest(s, from);
    DistanceCases(from, n);
    DistanceCases(from, p);
  }

  /** The keys in the order in which the map iterates over them. */
  method KeysOf(ring: Ring) returns (keys: seq<Pos>)
    ensures Ascending(keys) && |keys| == |ring| && forall p :: p in keys <==> p in ring
  {
    keys := [];
    var it := LowerBound(ring.Keys, -HALF);
    while it.Some?
      invariant Ascending(keys) && forall p :: p in keys ==> p in ring
      invariant it.Some? ==> it.value in ring && forall p :: p in ring ==> (p in keys <==> p < it.value)
      invariant it.None? ==> forall p :: p in ring ==> p in keys
      decreases if it.Some? then HALF - it.value else -1
    {
      KeepAscending(keys, it.value);
      keys := keys + [it.value];
      var after: int := it.value;
      it := LowerBound(ring.Keys, after + 1);
    }
    SameSize(keys, ring.Keys);
  }

  lemma KeepAscending(keys: seq<Pos>, p: Pos)
    requires Ascending(keys) && forall q :: q in keys ==> q < p
    ensures Ascending(keys + [p])
  {
    forall i: nat, j: nat | i < j < |keys + [p]|
      ensures (keys + [p])[i] < (keys + [p])[j]
    {
      assert keys[i] in keys;
    }
  }

  lemma SameSize(keys: seq<Pos>, s: set<Pos>)
    requires Ascending(keys) && forall p :: p in keys <==> p in s
    ensures |keys| == |s|
  {
    assert Increasing(keys, -HALF) by {
      forall i: nat, j: nat | i < j < |keys|
        ensures Distance(-HALF, keys[i]) < Distance(-HALF, keys[j])
      {
        DistanceCases(-HALF, keys[i]);
        DistanceCases(-HALF, keys[j]);
      }
    }
    OnlyOrder(keys, s, -HALF);
  }

  /** The index of the first key at or above the bound; 0 when there is none. */
  ghost predicate StartsAt(keys: seq<Pos>, bound: Pos, start: nat) {
    && start < |keys|
    && (forall i: nat :: i < start ==> keys[i] < bound)
    && (bound <= keys[start] || (start == 0 && forall i: nat :: i < |keys| ==> keys[i] < bound))
  }

  /** The sorted keys from the start index on, and round: the clockwise order. */
  lemma RotationIsClockwise(keys: seq<Pos>, s: set<Pos>, from: Pos, start: nat)
    requires Ascending(keys) && (forall p :: p in keys <==> p in s) && StartsAt(keys, from, start)
    ensures keys[start..] + keys[..start] == Clockwise(s, from)
  {
    var order := keys[start..] + keys[..start];
    forall i: nat, j: nat | i < j < |order|
      ensures Distance(from, order[i]) < Distance(from, order[j])
    {
      DistanceCases(from, order[i]);
      DistanceCases(from, order[j]);
      assert order[i] == if start + i < |keys| then keys[start + i] else keys[start + i - |keys|];
      assert order[j] == if start + j < |keys| then keys[start + j] else keys[start + j - |keys|];
    }
    forall p
      ensures p in order <==> p in s
    {
      assert keys == keys[..start] + keys[start..];
      assert p in keys <==> p in keys[..start] || p in keys[start..];
    }
    OnlyOrder(order, s, from);
  }

  lemma RotationAt(keys: seq<Pos>, start: nat, i: nat)
    requires start < |keys| && i < |keys|
    ensures keys[(start + i) % |keys|] == (keys[start..] + keys[..start])[i]
  {
    var k := OnceRound(start + i, |keys|);
    RotatedAt(keys, start, i);
  }

  lemma RotatedAt(keys: seq<Pos>, start: nat, i: nat)
    requires start < |keys| && i < |keys|
    ensures (keys[start..] + keys[..start])[i] == keys[if start + i < |keys| then start + i else start + i - |keys|]
  {
  }

  lemma OnceRound(a: nat, n: nat) returns (k: nat)
    requires a < 2 * n
    ensures k == (if a < n then a else a - n) && a % n == k
  {
    k := if a < n then a else a - n;
    Words.DivModUnique(a, n, if a < n then 0 else 1, k);
  }

  // ----- The ring, updated in place -----

  method HashKey(key: string) returns (h: int)
    ensures h == Position(key)
    ensures -0x8000_0000 <= h < 0x8000_0000 && (h - Poly(key)) % 0x1_0000_0000 == 0
  {
    PositionIs(key, ' ');
    h := 0;
    for i := 0 to |key|
      invariant h == Position(key[..i])
    {
      assert key[..i + 1][..i] == key[..i];
      WrapStep(Poly(key[..i]), key[i] as int % 256);
      h := Wrap(31 * h + key[i] as int % 256);
    }
    assert key[..|key|] == key;
  }

  lemma FirstReplica(ring: Ring, key: string)
    requires ring != map[]
    ensures Replicas(ring, key, 1) == [ring[Nearest(ring.Keys, Position(key))]]
  {
    var first := Nearest(ring.Keys, Position(key));
    hide Position, Nearest;
    var order := Clockwise(ring.Keys, Position(key));
    assert order[0] == first;
    assert Replicas(ring, key, 1) == [Order(ring, key)[0]];
  }

  lemma StartIndex(keys: seq<Pos>, s: set<Pos>, from: Pos, p: Pos, start: nat)
    requires Ascending(keys) && (forall q :: q in keys <==> q in s) && start < |keys| && keys[start] == p
    requires IsFirst(s, from, p)
    ensures StartsAt(keys, from, start)
  {
    assert forall i: nat :: i < |keys| ==> keys[i] in s;
    assert keys[0] in s && (start > 0 ==> keys[0] < p);
  }

  lemma NoReplicas(key: string, k: int)
    ensures Replicas(map[], key, k) == []
  {
  }

  /** The modular walk over the sorted keys meets the nodes in clockwise order. */
  lemma OrderIsRotation(ring: Ring, key: string, keys: seq<Pos>, start: nat)
    requires Ascending(keys) && (forall p :: p in keys <==> p in ring.Keys)
    requires start < |keys| == |ring| && StartsAt(keys, Position(key), start)
    ensures forall i: nat :: i < |keys| ==>
              keys[(start + i) % |keys|] in ring && ring[keys[(start + i) % |keys|]] == Order(ring, key)[i]
  {
    hide *;
    RotationIsClockwise(keys, ring.Keys, Position(key), start);
    OrderDef(ring, key);
    RotatedAddresses(ring, keys, start, Clockwise(ring.Keys, Position(key)));
  }

  lemma OrderDef(ring: Ring, key: string)
    ensures Order(ring, key) == Addresses(ring, Clockwise(ring.Keys, Position(key)))
  {
  }

  lemma RotatedAddresses(ring: Ring, keys: seq<Pos>, start: nat, order: seq<Pos>)
    requires start < |keys| && order == keys[start..] + keys[..start] && forall p :: p in order ==> p in ring
    ensures forall i: nat :: i < |keys| ==>
              keys[(start + i) % |keys|] in ring && ring[keys[(start + i) % |keys|]] == Addresses(ring, order)[i]
  {
    forall i: nat | i < |keys|
      ensures keys[(start + i) % |keys|] == order[i] && order[i] in ring
    {
      RotationAt(keys, start, i);
      assert order[i] in order;
    }
  }

  method StartOf(keys: seq<Pos>, p: Pos) returns (start: nat)
    requires p in keys
    ensures start < |keys| && keys[start] == p
  {
    start := 0;
    for i := 0 to |keys|
      invariant start == 0 && forall j :: 0 <= j < i ==> keys[j] != p
    {
      if keys[i] == p {
        start := i;
        break;
      }
    }
  }

  /** The modular walk that collects up to k nodes it has not met yet. */
  method Walk(ring: Ring, keys: seq<Pos>, start: nat, k: int, ghost order: seq<string>) returns (nodes: seq<string>)
    requires start < |keys| == |order|
    requires forall i: nat :: i < |keys| ==>
               keys[(start + i) % |keys|] in ring && ring[keys[(start + i) % |keys|]] == order[i]
    requires forall i: nat, j: nat :: i < j < |order| ==> order[i] != order[j]
    ensures nodes == order[..Limit(k, |keys|)]
  {
    nodes := [];
    var i := 0;
    while i < |keys| && |nodes| < k
      invariant 0 <= i <= |keys| && nodes == order[..i] && (i <= k || i == 0)
    {
      assert order[i] !in order[..i];
      var node := ring[keys[(start + i) % |keys|]];
      if node !in nodes {
        nodes := nodes + [node];
      }
      i := i + 1;
    }
  }

  class ConsistentHash {
    var ring: Ring

    ghost predicate Valid()
      reads this
    {
      WellPlaced(ring)
    }

    constructor ()
      ensures Valid() && ring == map[]
    {
      ring := map[];
    }

    method AddNode(address: string)
      requires Valid()
      modifies this
      ensures Valid() && ring == Added(old(ring), address)
      ensures ring == old(ring)[Position(address) := address]
    {
      var pos := HashKey(address);
      ring := ring[pos := address];
    }

    method RemoveNode(address: string)
      requires Valid()
      modifies this
      ensures Valid() && ring == Removed(old(ring), address)
      ensures ring == old(ring) - {Position(address)}
    {
      var pos := HashKey(address);
      ring := ring - {pos};
    }

    /** The first node in clockwise order: the node at the smallest position that is not below the
        key's, or at the smallest of all when there is none. */
    method GetNodeForKey(key: string) returns (node: string)
      requires Valid()
      ensures ring != map[] ==> exists p :: p in ring && node == ring[p] && IsFirst(ring.Keys, Position(key), p)
      ensures Replicas(ring, key, 1) == if ring == map[] then [] else [node]
      ensures ring == map[] ==> node == ""
    {
      if ring == map[] {
        return "";
      }
      var pos := HashKey(key);
      var it := LowerBound(ring.Keys, pos);
      if it.None? {
        it := LowerBound(ring.Keys, -HALF);
      }
      node := ring[it.value];
      FoundIsNearest(ring.Keys, pos, it.value);
      FirstReplica(ring, key);
    }

    method GetNodesForKey(key: string, k: int) returns (nodes: seq<string>)
      requires Valid()
      ensures nodes == Replicas(ring, key, k)
    {
      hide Position, Clockwise, Order, WellPlaced, Replicas, Ascending, StartsAt, Limit, Ranked;
      nodes := [];
      if ring == map[] {
        NoReplicas(key, k);
        return;
      }
      var pos := HashKey(key);
      var it := LowerBound(ring.Keys, pos);
      if it.None? {
        it := LowerBound(ring.Keys, -HALF);
      }
      var keys := KeysOf(ring);
      assert it.value in keys;
      var start := StartOf(keys, it.value);
      StartIndex(keys, ring.Keys, pos, it.value, start);
      OrderIsRotation(ring, key, keys, start);
      OrderIsRanked(ring, key);
      RankedIsDistinct(Order(ring, key), key);
      ReplicasDef(ring, key, k);
      nodes := Walk(ring, keys, start, k, Order(ring, key));
    }

    /** Every node once, by position. */
    method GetAllNodes() returns (out: seq<string>)
      requires Valid()
      ensures |out| == |ring| && (forall a :: a in out <==> Present(ring, a))
      ensures forall i: nat, j: nat :: i < j < |out| ==> Position(out[i]) < Position(out[j])
    {
      var keys := KeysOf(ring);
      out := [];
      for i := 0 to |keys|
        invariant |out| == i && forall j: nat :: j < i ==> out[j] == ring[keys[j]]
      {
        out := out + [ring[keys[i]]];
      }
    }

    method GetNodeCount() returns (count: nat)
      ensures count == |ring|
    {
      count := |ring|;
    }

    method HasNode(address: string) returns (found: bool)
      ensures found <==> Position(address) in ring
    {
      var pos := HashKey(address);
      found := pos in ring;
    }
  }

  /** The test for a node answers for its position: it is right about every address exactly when
      no stored address collides with an absent one. */
  lemma HasNodeIsRightIff(ring: Ring, address: string)
    requires WellPlaced(ring)
    ensures (Position(address) in ring <==> Present(ring, address)) <==>
            !exists other :: other != address && Present(ring, other) && Position(other) == Position(address)
  {
    if Position(address) in ring && !Present(ring, address) {
      assert Present(ring, ring[Position(address)]);
    }
  }
}
