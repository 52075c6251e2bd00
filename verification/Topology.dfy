/** How the metadata nodes find their place in the chain: every node on its own reads the same
    configuration, filters and sorts it, and looks up the node after itself. */
module Topology {
  import opened MetadataNodes
  import opened Sorting

  const FIRST_METADATA_ID := 11

  datatype NodeInfo = NodeInfo(id: int, host: string, port: int)

  predicate InChain(all: seq<NodeInfo>, n: NodeInfo) {
    n in all && n.id >= FIRST_METADATA_ID
  }

  /** No two entries for metadata nodes have the same id. */
  ghost predicate DistinctIds(all: seq<NodeInfo>) {
    forall i: nat, j: nat :: i < j < |all| && all[i].id >= FIRST_METADATA_ID && all[j].id >= FIRST_METADATA_ID ==>
      all[i].id != all[j].id
  }

  ghost predicate KnownId(all: seq<NodeInfo>, id: int) {
    exists n :: InChain(all, n) && n.id == id
  }

  /** The metadata node with the smallest id above this one's. */
  ghost predicate Follows(all: seq<NodeInfo>, id: int, next: NodeInfo) {
    InChain(all, next) && id < next.id && forall m :: InChain(all, m) && id < m.id ==> next.id <= m.id
  }

  ghost predicate IsLast(all: seq<NodeInfo>, id: int) {
    forall m :: InChain(all, m) ==> m.id <= id
  }

  function IdOf(n: NodeInfo): int {
    n.id
  }

  ghost predicate Increasing(nodes: seq<NodeInfo>) {
    forall i: nat, j: nat :: i < j < |nodes| ==> nodes[i].id < nodes[j].id
  }

  /** All metadata nodes, in increasing order of their ids. */
  ghost predicate IsChain(all: seq<NodeInfo>, order: seq<NodeInfo>) {
    Increasing(order) && forall n :: n in order <==> InChain(all, n)
  }

  /** The metadata nodes, in order of their ids, whether or not ids are repeated. */
  ghost predicate Lists(all: seq<NodeInfo>, order: seq<NodeInfo>) {
    OrderedBy(order, IdOf) && forall n :: n in order <==> InChain(all, n)
  }

  /** How many entries have this id. */
  function Copies(nodes: seq<NodeInfo>, id: int): nat {
    if nodes == [] then 0
    else Copies(nodes[..|nodes| - 1], id) + (if nodes[|nodes| - 1].id == id then 1 else 0)
  }

  function Filtered(all: seq<NodeInfo>): (nodes: seq<NodeInfo>)
    ensures forall n :: n in nodes <==> InChain(all, n)
  {
    if all == [] then []
    else
      var n := all[|all| - 1];
      assert forall m :: m in all <==> m in all[..|all| - 1] || m == n;
      Filtered(all[..|all| - 1]) + (if n.id >= FIRST_METADATA_ID then [n] else [])
  }

  /** Distinct ids survive the filter. */
  lemma {:induction false} FilteredIdsDiffer(all: seq<NodeInfo>)
    requires DistinctIds(all)
    ensures forall i: nat, j: nat :: i < j < |Filtered(all)| ==> Filtered(all)[i].id != Filtered(all)[j].id
  {
    if all != [] {
      var front, last := all[..|all| - 1], all[|all| - 1];
      FilteredIdsDiffer(front);
      forall i: nat | last.id >= FIRST_METADATA_ID && i < |Filtered(front)|
        ensures Filtered(front)[i].id != last.id
      {
        assert InChain(front, Filtered(front)[i]);
        var k: nat :| k < |front| && front[k] == Filtered(front)[i];
        assert all[k] == front[k] && all[|all| - 1] == last;
      }
    }
  }

  lemma TwiceInMultiset(nodes: seq<NodeInfo>, i: nat, j: nat)
    requires i < j < |nodes| && nodes[i] == nodes[j]
    ensures multiset(nodes)[nodes[i]] >= 2
  {
    assert nodes == nodes[..i] + [nodes[i]] + nodes[i + 1..];
    assert nodes[j] in nodes[i + 1..];
    assert nodes[j] in multiset(nodes[i + 1..]);
  }

  /** Sorting a list whose ids differ makes it strictly increasing. */
  lemma {:induction false} SortedIncreases(nodes: seq<NodeInfo>, sorted: seq<NodeInfo>)
    requires OrderedBy(sorted, IdOf) && Permutes(sorted, nodes)
    requires forall i: nat, j: nat :: i < j < |nodes| ==> nodes[i].id != nodes[j].id
    ensures Increasing(sorted)
  {
    forall i: nat, j: nat | i < j < |sorted|
      ensures sorted[i].id < sorted[j].id
    {
      assert sorted[i] in multiset(nodes) && sorted[j] in multiset(nodes);
      if sorted[i] == sorted[j] {
        TwiceInMultiset(sorted, i, j);
        OnceInMultiset(nodes, sorted[i]);
        assert false;
      }
    }
  }

  lemma {:induction false} OnceInMultiset(nodes: seq<NodeInfo>, n: NodeInfo)
    requires forall i: nat, j: nat :: i < j < |nodes| ==> nodes[i].id != nodes[j].id
    ensures multiset(nodes)[n] <= 1
  {
    if nodes != [] {
      var front, last := nodes[..|nodes| - 1], nodes[|nodes| - 1];
      OnceInMultiset(front, n);
      assert nodes == front + [last];
      forall i: nat | i < |front|
        ensures front[i] != last
      {
        assert nodes[i].id != nodes[|nodes| - 1].id;
      }
      assert last !in front && last !in multiset(front);
    }
  }

  lemma {:induction false} CopiesConcat(a: seq<NodeInfo>, b: seq<NodeInfo>, id: int)
    ensures Copies(a + b, id) == Copies(a, id) + Copies(b, id)
  {
    if b == [] {
      assert a + b == a;
    } else {
      CopiesConcat(a, b[..|b| - 1], id);
      assert (a + b)[..|a + b| - 1] == a + b[..|b| - 1];
    }
  }

  lemma {:induction false} NoCopies(nodes: seq<NodeInfo>, id: int)
    ensures Copies(nodes, id) == 0 <==> forall n :: n in nodes ==> n.id != id
  {
    if nodes != [] {
      NoCopies(nodes[..|nodes| - 1], id);
      assert nodes == nodes[..|nodes| - 1] + [nodes[|nodes| - 1]];
    }
  }

  lemma CopiesAt(nodes: seq<NodeInfo>, i: nat, id: int)
    requires i < |nodes|
    ensures Copies(nodes, id) == Copies(nodes[..i], id) + Copies(nodes[i + 1..], id) + (if nodes[i].id == id then 1 else 0)
  {
    assert nodes == nodes[..i] + [nodes[i]] + nodes[i + 1..];
    CopiesConcat(nodes[..i] + [nodes[i]], nodes[i + 1..], id);
    CopiesConcat(nodes[..i], [nodes[i]], id);
    assert [nodes[i]][..0] == [];
  }

  lemma {:induction false} CopiesOfPermutation(a: seq<NodeInfo>, b: seq<NodeInfo>, id: int)
    requires Permutes(a, b)
    ensures Copies(a, id) == Copies(b, id)
  {
    SameElements(a, b);
    if a != [] {
      var front, last := a[..|a| - 1], a[|a| - 1];
      assert last in b;
      var i: nat :| i < |b| && b[i] == last;
      SplitLast(a);
      DropAt(b, i);
      Cancel(multiset(front), multiset(b[..i] + b[i + 1..]), last);
      CopiesOfPermutation(front, b[..i] + b[i + 1..], id);
      CopiesConcat(b[..i], b[i + 1..], id);
      CopiesAt(b, i, id);
    }
  }

  lemma {:induction false} CopiesFiltered(all: seq<NodeInfo>, id: int)
    requires id >= FIRST_METADATA_ID
    ensures Copies(Filtered(all), id) == Copies(all, id)
  {
    if all != [] {
      var front, last := all[..|all| - 1], all[|all| - 1];
      CopiesFiltered(front, id);
      assert Filtered(all) == Filtered(front) + (if last.id >= FIRST_METADATA_ID then [last] else []);
      if last.id >= FIRST_METADATA_ID {
        assert Filtered(all)[..|Filtered(front)|] == Filtered(front);
      } else {
        assert Filtered(all) == Filtered(front);
      }
    }
  }

  /** The first entry with an id is followed by another one exactly when the id is repeated. */
  lemma TwinIsNext(order: seq<NodeInfo>, i: nat)
    requires OrderedBy(order, IdOf) && i < |order| && forall j: nat :: j < i ==> order[j].id != order[i].id
    ensures Copies(order, order[i].id) >= 1
    ensures Copies(order, order[i].id) > 1 <==> i + 1 < |order| && order[i + 1].id == order[i].id
  {
    var id := order[i].id;
    CopiesAt(order, i, id);
    NoCopies(order[..i], id);
    NoCopies(order[i + 1..], id);
    InOrderOfIds(order);
    forall n | n in order[..i]
      ensures n.id != id
    {
      var k: nat :| k < i && order[..i][k] == n;
    }
    if i + 1 < |order| {
      assert order[i + 1] in order[i + 1..];
      forall n | n in order[i + 1..]
        ensures order[i + 1].id <= n.id
      {
        var k: nat :| k < |order[i + 1..]| && order[i + 1..][k] == n;
        assert n == order[i + 1 + k];
      }
    }
  }

  lemma InOrderOfIds(order: seq<NodeInfo>)
    requires OrderedBy(order, IdOf)
    ensures forall i: nat, j: nat :: i <= j < |order| ==> order[i].id <= order[j].id
  {
    forall i: nat, j: nat | i <= j < |order|
      ensures order[i].id <= order[j].id
    {
      assert i == j || IdOf(order[i]) <= IdOf(order[j]);
    }
  }

  /** The entries of the configuration that belong to metadata nodes. */
  method MetadataEntries(all: seq<NodeInfo>) returns (nodes: seq<NodeInfo>)
    ensures nodes == Filtered(all)
  {
    nodes := [];
    for i := 0 to |all|
      invariant nodes == Filtered(all[..i])
    {
      assert all[..i + 1][..i] == all[..i];
      if all[i].id >= FIRST_METADATA_ID {
        nodes := nodes + [all[i]];
      }
    }
    assert all[..|all|] == all;
  }

  /** What the start-up code of node `nodeId` finds: the next node's address, or no next node. When
      several entries have its id, it finds another one of these. */
  method FindNext(all: seq<NodeInfo>, nodeId: int) returns (nextIp: string, nextPort: int, ghost order: seq<NodeInfo>)
    ensures Permutes(order, Filtered(all)) && Lists(all, order)
    ensures forall n :: n in order <==> n in all && n.id >= 11
    ensures forall i: nat, j: nat :: i < j < |order| ==> order[i].id <= order[j].id
    ensures DistinctIds(all) ==> IsChain(all, order)
    ensures !KnownId(all, nodeId) ==> nextIp == "" && nextPort == -1
    ensures KnownId(all, nodeId) && Copies(all, nodeId) == 1 && !IsLast(all, nodeId) ==>
              exists next :: Follows(all, nodeId, next) && nextIp == next.host && nextPort == next.port
    ensures KnownId(all, nodeId) && Copies(all, nodeId) == 1 && IsLast(all, nodeId) ==>
              nextIp == "" && nextPort == -1
    ensures KnownId(all, nodeId) && Copies(all, nodeId) != 1 ==>
              exists twin :: InChain(all, twin) && twin.id == nodeId && nextIp == twin.host && nextPort == twin.port
  {
    hide *;
    var metadataNodes := MetadataEntries(all);
    metadataNodes := SortBy(metadataNodes, IdOf);
    order := metadataNodes;
    SortedLists(all, order);
    InOrderOfIds(order);
    ListedIs(all, order);
    nextIp, nextPort := "", -1;
    for i := 0 to |metadataNodes|
      invariant nextIp == "" && nextPort == -1
      invariant forall j: nat :: j < i ==> metadataNodes[j].id != nodeId
    {
      if metadataNodes[i].id == nodeId {
        FirstMatch(all, order, i);
        if i + 1 < |metadataNodes| {
          nextIp := metadataNodes[i + 1].host;
          nextPort := metadataNodes[i + 1].port;
        }
        return;
      }
    }
    NoMatch(all, order, nodeId);
  }

  lemma ListedIs(all: seq<NodeInfo>, order: seq<NodeInfo>)
    requires Lists(all, order)
    ensures forall n :: n in order <==> n in all && n.id >= 11
  {
  }

  lemma NoMatch(all: seq<NodeInfo>, order: seq<NodeInfo>, nodeId: int)
    requires Lists(all, order) && forall j: nat :: j < |order| ==> order[j].id != nodeId
    ensures !KnownId(all, nodeId)
  {
    hide OrderedBy, InChain;
  }

  lemma SortedLists(all: seq<NodeInfo>, order: seq<NodeInfo>)
    requires OrderedBy(order, IdOf) && Permutes(order, Filtered(all))
    ensures Lists(all, order) && (DistinctIds(all) ==> IsChain(all, order))
  {
    SameElements(order, Filtered(all));
    if DistinctIds(all) {
      FilteredIdsDiffer(all);
      SortedIncreases(Filtered(all), order);
    }
  }

  /** What comes after the first entry with an id. */
  lemma FirstMatch(all: seq<NodeInfo>, order: seq<NodeInfo>, i: nat)
    requires Lists(all, order) && Permutes(order, Filtered(all))
    requires i < |order| && forall j: nat :: j < i ==> order[j].id != order[i].id
    ensures KnownId(all, order[i].id)
    ensures Copies(all, order[i].id) == 1 ==>
              if i + 1 < |order| then Follows(all, order[i].id, order[i + 1]) && !IsLast(all, order[i].id)
              else IsLast(all, order[i].id)
    ensures Copies(all, order[i].id) != 1 ==>
              i + 1 < |order| && InChain(all, order[i + 1]) && order[i + 1].id == order[i].id
  {
    assert InChain(all, order[i]);
    CopiesFiltered(all, order[i].id);
    CopiesOfPermutation(order, Filtered(all), order[i].id);
    TwinIsNext(order, i);
    NextInOrder(all, order, i);
    InOrderOfIds(order);
    assert i + 1 < |order| ==> order[i + 1] in order;
  }

  /** Where the ids change, the next entry's node follows, and the last entry has the last id. */
  lemma NextInOrder(all: seq<NodeInfo>, order: seq<NodeInfo>, i: nat)
    requires Lists(all, order) && i < |order|
    ensures i + 1 < |order| && order[i].id < order[i + 1].id ==>
              Follows(all, order[i].id, order[i + 1]) && !IsLast(all, order[i].id)
    ensures i + 1 == |order| ==> IsLast(all, order[i].id)
    ensures KnownId(all, order[i].id)
  {
    assert InChain(all, order[i]);
    InOrderOfIds(order);
    if i + 1 < |order| {
      assert order[i + 1] in order;
      forall m | InChain(all, m) && order[i].id < m.id
        ensures order[i + 1].id <= m.id
      {
        var k: nat :| k < |order| && order[k] == m;
      }
    } else {
      forall m | InChain(all, m)
        ensures m.id <= order[i].id
      {
        var k: nat :| k < |order| && order[k] == m;
      }
    }
  }

  lemma SmallestFirst(a: seq<NodeInfo>, n: NodeInfo)
    requires Increasing(a) && n in a
    ensures a[0].id <= n.id && (a[0].id == n.id ==> a[0] == n)
  {
    var k: nat :| k < |a| && a[k] == n;
    assert k == 0 || a[0].id < a[k].id;
  }

  lemma RestIncreases(a: seq<NodeInfo>)
    requires Increasing(a) && a != []
    ensures Increasing(a[1..]) && forall n :: n in a[1..] <==> n in a && n.id != a[0].id
  {
    assert a == [a[0]] + a[1..];
    forall n | n in a[1..]
      ensures n.id != a[0].id
    {
      var k: nat :| k < |a[1..]| && a[1..][k] == n;
      assert a[0].id < a[k + 1].id;
    }
  }

  /** Any two nodes that work the order out for themselves agree on it. */
  lemma {:induction false} OneChain(a: seq<NodeInfo>, b: seq<NodeInfo>)
    requires Increasing(a) && Increasing(b) && forall n :: n in a <==> n in b
    ensures a == b
  {
    assert (a == [] || a[0] in b) && (b == [] || b[0] in a);
    if a != [] {
      SmallestFirst(a, b[0]);
      SmallestFirst(b, a[0]);
      RestIncreases(a);
      RestIncreases(b);
      hide Increasing;
      OneChain(a[1..], b[1..]);
      assert a == [a[0]] + a[1..] && b == [b[0]] + b[1..];
    }
  }

  /** The nodes form one path: every metadata node once, in increasing order of ids, each knowing the
      next one's port, and only the last is constructed as the tail. */
  lemma OnePath(all: seq<NodeInfo>, order: seq<NodeInfo>, i: nat, nextPort: int)
    requires IsChain(all, order) && i < |order|
    requires forall n :: InChain(all, n) ==> n.port != NO_PORT
    requires if IsLast(all, order[i].id) then nextPort == NO_PORT
             else exists next :: Follows(all, order[i].id, next) && nextPort == next.port
    requires DistinctIds(all)
    ensures nextPort == if i + 1 < |order| then order[i + 1].port else NO_PORT
    ensures Constructed(nextPort).role == (if i + 1 == |order| then TAIL else HEAD)
    ensures Forwards(Constructed(nextPort)) <==> i + 1 < |order|
  {
    assert Lists(all, order);
    NextInOrder(all, order, i);
    if i + 1 < |order| {
      var next :| Follows(all, order[i].id, next) && nextPort == next.port;
      assert next.id == order[i + 1].id;
      SameNode(all, next, order[i + 1]);
    }
  }

  lemma SameNode(all: seq<NodeInfo>, a: NodeInfo, b: NodeInfo)
    requires DistinctIds(all) && InChain(all, a) && InChain(all, b) && a.id == b.id
    ensures a == b
  {
    var i: nat :| i < |all| && all[i] == a;
    var j: nat :| j < |all| && all[j] == b;
  }
}
