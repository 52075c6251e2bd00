/** How many crashes a stored file survives. In every run, a replica of a published chunk is usable
    exactly while its node is up: a node that refused the chunk had crashed. So data survive any
    one crash, and are lost exactly when both nodes of a chunk are down. */
module Replication {
  import opened Words
  import opened FileUtils
  import opened StorageSystem
  import opened DataPath
  import opened DataPathInvariant
  import opened EndToEnd
  import Dht = ConsistentHashing
  import Sha256

  // ----- What every run keeps -----

  /** The node has acknowledged the piece with this hash to upload u. */
  ghost predicate AckedBy(w: World, u: nat, hash: string, node: string) {
    exists c: nat :: c < |w.storage.conns| && w.storage.conns[c].owner == u && w.storage.conns[c].phase.Acked?
      && w.storage.conns[c].hash == hash && w.storage.conns[c].node == node
  }

  /** The first r replicas of the hash have acknowledged it, or are down. */
  ghost predicate TriedUpTo(w: World, u: nat, ring: Dht.Ring, hash: string, r: nat) {
    forall q: nat :: q < r && q < |Targets(ring, hash)| ==>
      AckedBy(w, u, hash, Targets(ring, hash)[q]) || Targets(ring, hash)[q] !in w.storage.up
  }

  /** Every replica of the first i pieces has acknowledged its piece, or is down. */
  ghost predicate PiecesTried(w: World, u: nat, i: nat) {
    u < |w.uploads| && forall j: nat :: j < i ==>
      var hash := PieceHash(w.uploads[u].file, j);
      TriedUpTo(w, u, w.uploads[u].ring, hash, |Targets(w.uploads[u].ring, hash)|)
  }

  ghost predicate UploadTried(w: World, u: nat)
    requires u < |w.uploads|
  {
    var up := w.uploads[u];
    match up.phase
    case Placing(i, r, _) => PiecesTried(w, u, i) && TriedUpTo(w, u, up.ring, PieceHash(up.file, i), r)
    case Sending(i, r, _, conn) =>
      && PiecesTried(w, u, i) && TriedUpTo(w, u, up.ring, PieceHash(up.file, i), r)
      && conn < |w.storage.conns| && r < |Targets(up.ring, PieceHash(up.file, i))|
      && w.storage.conns[conn].node == Targets(up.ring, PieceHash(up.file, i))[r]
    case Publishing => PiecesTried(w, u, PieceCount(|up.file|))
    case Published(_) => PiecesTried(w, u, PieceCount(|up.file|))
    case Aborted => true
  }

  /** Only nodes exist that have a store, and a connection is refused only by a crash. */
  ghost predicate StorageTried(s: Storage) {
    && (forall node :: node in s.up ==> node in s.blobs)
    && (forall c: nat :: c < |s.conns| && s.conns[c].phase.Refused? ==> s.conns[c].node !in s.up)
  }

  ghost predicate Tried(w: World) {
    StorageTried(w.storage) && forall u: nat :: u < |w.uploads| ==> UploadTried(w, u)
  }

  lemma AckedByLater(w: World, t: World, u: nat, hash: string, node: string)
    requires Persists(w.storage, t.storage) && AckedBy(w, u, hash, node)
    ensures AckedBy(t, u, hash, node)
  {
    var c: nat :| c < |w.storage.conns| && w.storage.conns[c].owner == u && w.storage.conns[c].phase.Acked?
      && w.storage.conns[c].hash == hash && w.storage.conns[c].node == node;
    assert t.storage.conns[c].(phase := w.storage.conns[c].phase) == w.storage.conns[c];
  }

  lemma TriedUpToLater(w: World, t: World, u: nat, ring: Dht.Ring, hash: string, r: nat)
    requires Persists(w.storage, t.storage) && TriedUpTo(w, u, ring, hash, r)
    ensures TriedUpTo(t, u, ring, hash, r)
  {
    assert t.storage.up <= w.storage.up;
    hide Persists, AckedBy, Targets;
    forall q: nat | q < r && q < |Targets(ring, hash)|
      ensures AckedBy(t, u, hash, Targets(ring, hash)[q]) || Targets(ring, hash)[q] !in t.storage.up
    {
      if AckedBy(w, u, hash, Targets(ring, hash)[q]) {
        AckedByLater(w, t, u, hash, Targets(ring, hash)[q]);
      }
    }
  }

  lemma PiecesTriedLater(w: World, t: World, u: nat, i: nat)
    requires Persists(w.storage, t.storage) && UploadsLater(w, t) && PiecesTried(w, u, i)
    ensures PiecesTried(t, u, i)
  {
    assert t.uploads[u].(phase := w.uploads[u].phase) == w.uploads[u];
    hide Persists, UploadsLater, TriedUpTo, PieceHash, Targets;
    forall j: nat | j < i
      ensures var hash := PieceHash(t.uploads[u].file, j);
              TriedUpTo(t, u, t.uploads[u].ring, hash, |Targets(t.uploads[u].ring, hash)|)
    {
      var hash := PieceHash(w.uploads[u].file, j);
      TriedUpToLater(w, t, u, w.uploads[u].ring, hash, |Targets(w.uploads[u].ring, hash)|);
    }
  }

  lemma UploadTriedLater(w: World, t: World, u: nat)
    requires Persists(w.storage, t.storage) && UploadsLater(w, t) && u < |w.uploads| && UploadTried(w, u)
    requires u < |t.uploads| && t.uploads[u] == w.uploads[u]
    ensures UploadTried(t, u)
  {
    hide UploadsLater, PiecesTried, TriedUpTo, PieceHash, Targets;
    var up := w.uploads[u];
    match up.phase
    case Placing(i, r, _) =>
      PiecesTriedLater(w, t, u, i);
      TriedUpToLater(w, t, u, up.ring, PieceHash(up.file, i), r);
    case Sending(i, r, _, conn) =>
      PiecesTriedLater(w, t, u, i);
      TriedUpToLater(w, t, u, up.ring, PieceHash(up.file, i), r);
      assert t.storage.conns[conn].(phase := w.storage.conns[conn].phase) == w.storage.conns[conn];
    case Publishing => PiecesTriedLater(w, t, u, PieceCount(|up.file|));
    case Published(_) => PiecesTriedLater(w, t, u, PieceCount(|up.file|));
    case Aborted =>
  }

  lemma NothingTried(w: World, u: nat, ring: Dht.Ring, hash: string)
    ensures TriedUpTo(w, u, ring, hash, 0)
    ensures u < |w.uploads| ==> PiecesTried(w, u, 0)
  {
  }

  lemma OneMoreTried(w: World, u: nat, ring: Dht.Ring, hash: string, r: nat)
    requires TriedUpTo(w, u, ring, hash, r)
    requires r < |Targets(ring, hash)| ==>
               AckedBy(w, u, hash, Targets(ring, hash)[r]) || Targets(ring, hash)[r] !in w.storage.up
    ensures TriedUpTo(w, u, ring, hash, r + 1)
  {
    hide AckedBy, Targets;
  }

  lemma OneMorePieceTried(w: World, u: nat, i: nat, r: nat)
    requires PiecesTried(w, u, i)
    requires var hash := PieceHash(w.uploads[u].file, i);
             TriedUpTo(w, u, w.uploads[u].ring, hash, r) && r >= |Targets(w.uploads[u].ring, hash)|
    ensures PiecesTried(w, u, i + 1)
  {
    hide AckedBy, Targets, PieceHash;
  }

  lemma PlaceTries(w: World, u: nat)
    requires Possible(w, Place(u))
    requires var up := w.uploads[u]; up.phase.r < |Targets(up.ring, PieceHash(up.file, up.phase.i))|
    ensures var up, t := w.uploads[u], DoPlace(w, u);
            var Placing(i, r, acks) := up.phase;
            var node := Targets(up.ring, PieceHash(up.file, i))[r];
            && u < |t.uploads| && t.uploads[u].(phase := up.phase) == up
            && if StepEnabled(w.storage, OpenStore(u, node, Piece(up.file, i))) then
                 && t.uploads[u].phase == Sending(i, r, acks, |w.storage.conns|)
                 && |t.storage.conns| == |w.storage.conns| + 1 && t.storage.conns[|w.storage.conns|].node == node
               else t.uploads[u].phase == Placing(i, r + 1, acks) && t.storage == w.storage
  {
    hide Sha256.Digest, Targets, Piece, PieceHash, PieceCount;
  }

  lemma PlaceConcludes(w: World, u: nat)
    requires Possible(w, Place(u))
    requires var up := w.uploads[u]; up.phase.r >= |Targets(up.ring, PieceHash(up.file, up.phase.i))|
    ensures var up, t := w.uploads[u], DoPlace(w, u);
            var i := up.phase.i;
            && u < |t.uploads| && t.uploads[u].(phase := up.phase) == up && i < PieceCount(|up.file|)
            && (t.uploads[u].phase == Aborted || t.uploads[u].phase == Placing(i + 1, 0, 0) ||
                (t.uploads[u].phase == Publishing && i + 1 == PieceCount(|up.file|)))
  {
    hide Sha256.Digest, Targets, Piece, PieceHash, PieceCount;
  }

  /** A replica that cannot be reached is down. */
  lemma UnreachableIsDown(s: Storage, u: nat, node: string, data: seq<Byte>)
    requires StorageTried(s) && data != [] && !StepEnabled(s, OpenStore(u, node, data))
    ensures node !in s.up
  {
  }

  /** The upload is about to try the next replica of its chunk. */
  lemma PlacedNext(w: World, u: nat)
    requires Possible(w, Place(u)) && Later(w, DoPlace(w, u)) && StorageTried(w.storage) && UploadTried(w, u)
    requires var up := w.uploads[u]; up.phase.r < |Targets(up.ring, PieceHash(up.file, up.phase.i))|
    ensures u < |DoPlace(w, u).uploads| && UploadTried(DoPlace(w, u), u)
  {
    var t := DoPlace(w, u);
    var up := w.uploads[u];
    PlaceTries(w, u);
    var Placing(i, r, acks) := up.phase;
    var hash := PieceHash(up.file, i);
    ChunkIsNotEmpty(up.file, i);
    assert i < PieceCount(|up.file|);
    hide DoPlace, Possible, Targets, Piece, PieceHash, PiecesTried, TriedUpTo, AckedBy, PieceCount, StepEnabled,
      StorageTried, Persists, UploadsLater, ChainLater, AcksLater;
    PiecesTriedLater(w, t, u, i);
    TriedUpToLater(w, t, u, up.ring, hash, r);
    if !StepEnabled(w.storage, OpenStore(u, Targets(up.ring, hash)[r], Piece(up.file, i))) {
      UnreachableIsDown(w.storage, u, Targets(up.ring, hash)[r], Piece(up.file, i));
      OneMoreTried(t, u, up.ring, hash, r);
    }
  }

  lemma Concluded(t: World, u: nat, i: nat)
    requires u < |t.uploads| && PiecesTried(t, u, i + 1)
    requires var up := t.uploads[u];
             up.phase == Aborted || up.phase == Placing(i + 1, 0, 0) ||
             (up.phase == Publishing && i + 1 == PieceCount(|up.file|))
    ensures UploadTried(t, u)
  {
    var up := t.uploads[u];
    NothingTried(t, u, up.ring, PieceHash(up.file, i + 1));
    hide PiecesTried, TriedUpTo, PieceHash, Targets;
  }

  /** The upload has tried every replica of its chunk. */
  lemma PlacedLast(w: World, u: nat)
    requires Possible(w, Place(u)) && Later(w, DoPlace(w, u)) && UploadTried(w, u)
    requires var up := w.uploads[u]; up.phase.r >= |Targets(up.ring, PieceHash(up.file, up.phase.i))|
    ensures u < |DoPlace(w, u).uploads| && UploadTried(DoPlace(w, u), u)
  {
    hide *;
    CanPlace(w, u);
    var t := DoPlace(w, u);
    var up := w.uploads[u];
    var i, r := up.phase.i, up.phase.r;
    PlaceConcludes(w, u);
    TriedWhilePlacing(w, u);
    LaterParts(w, t);
    PiecesTriedLater(w, t, u, i);
    TriedUpToLater(w, t, u, up.ring, PieceHash(up.file, i), r);
    OneMorePieceTried(t, u, i, r);
    Concluded(t, u, i);
  }

  lemma TriedWhilePlacing(w: World, u: nat)
    requires u < |w.uploads| && w.uploads[u].phase.Placing? && UploadTried(w, u)
    ensures var up := w.uploads[u];
            PiecesTried(w, u, up.phase.i) && TriedUpTo(w, u, up.ring, PieceHash(up.file, up.phase.i), up.phase.r)
  {
    hide PiecesTried, TriedUpTo, PieceHash;
  }

  lemma LaterParts(w: World, t: World)
    requires Later(w, t)
    ensures Persists(w.storage, t.storage) && UploadsLater(w, t)
  {
    hide Persists, UploadsLater, ChainLater, AcksLater;
  }

  lemma ChunkIsNotEmpty(file: seq<Byte>, i: nat)
    ensures i < PieceCount(|file|) ==> Piece(file, i) != []
  {
    if i < PieceCount(|file|) {
      CutGrows(|file|, i);
    }
  }

  lemma HeardTried(w: World, u: nat)
    requires Possible(w, Hear(u)) && Later(w, DoHear(w, u)) && StorageTried(w.storage)
    requires UploadTried(w, u) && UploadOk(w, u)
    ensures u < |DoHear(w, u).uploads| && UploadTried(DoHear(w, u), u)
  {
    var t := DoHear(w, u);
    var up := w.uploads[u];
    var Sending(i, r, acks, conn) := up.phase;
    var hash := PieceHash(up.file, i);
    hide Sha256.Digest, Targets, Piece, PieceHash, PiecesTried, TriedUpTo, AcceptedUpTo, Accepted;
    PiecesTriedLater(w, t, u, i);
    TriedUpToLater(w, t, u, up.ring, hash, r);
    if t.storage.conns[conn].phase.Acked? {
      assert AckedBy(t, u, hash, Targets(up.ring, hash)[r]);
    }
    OneMoreTried(t, u, up.ring, hash, r);
  }

  lemma PublishingTried(w: World, u: nat)
    requires u < |w.uploads| && w.uploads[u].phase.Publishing? && UploadTried(w, u)
    ensures PiecesTried(w, u, PieceCount(|w.uploads[u].file|))
  {
    hide PiecesTried, PieceCount;
  }

  lemma PublishedIsTried(w: World, u: nat)
    requires u < |w.uploads| && w.uploads[u].phase.Published? && PiecesTried(w, u, PieceCount(|w.uploads[u].file|))
    ensures UploadTried(w, u)
  {
    hide PiecesTried, PieceCount;
  }

  lemma PublishFacts(w: World, u: nat)
    requires Possible(w, Publish(u))
    ensures u < |w.uploads| && w.uploads[u].phase.Publishing?
    ensures u < |DoPublish(w, u).uploads| && DoPublish(w, u).uploads[u].phase.Published?
    ensures DoPublish(w, u).uploads[u].file == w.uploads[u].file
  {
    hide Chain.Next, Chain.Enabled, Meta;
  }

  lemma PublishedTried(w: World, u: nat)
    requires Possible(w, Publish(u)) && Later(w, DoPublish(w, u)) && UploadTried(w, u)
    ensures u < |DoPublish(w, u).uploads| && UploadTried(DoPublish(w, u), u)
  {
    PublishFacts(w, u);
    hide Possible, DoPublish, UploadTried, PiecesTried, PieceCount, UploadsLater, Persists;
    PublishingTried(w, u);
    PiecesTriedLater(w, DoPublish(w, u), u, PieceCount(|w.uploads[u].file|));
    PublishedIsTried(DoPublish(w, u), u);
  }

  lemma BegunTried(w: World, m: Move)
    requires m.Begin? && Possible(w, m)
    ensures |NextWorld(w, m).uploads| == |w.uploads| + 1 && UploadTried(NextWorld(w, m), |w.uploads|)
  {
    hide PiecesTried, TriedUpTo, PieceHash;
    NothingTried(NextWorld(w, m), |w.uploads|, m.ring, PieceHash(m.file, 0));
  }

  lemma StepKeepsStorageTried(s: Storage, st: StorageStep)
    requires StorageTried(s) && StepEnabled(s, st)
    ensures StorageTried(NextStorage(s, st))
  {
    hide Sha256.Digest;
  }

  lemma MoveKeepsStorageTried(w: World, m: Move)
    requires StorageTried(w.storage) && Possible(w, m)
    ensures StorageTried(NextWorld(w, m).storage)
  {
    hide Sha256.Digest, DoFetch, Targets, Piece, PieceHash, StorageTried;
    FetchFrame(w, m);
    if m.StorageMove? {
      StepKeepsStorageTried(w.storage, m.act);
    } else if m.Place? {
      var up := w.uploads[m.u];
      var targets := Targets(up.ring, PieceHash(up.file, up.phase.i));
      if up.phase.r < |targets| {
        var st := OpenStore(m.u, targets[up.phase.r], Piece(up.file, up.phase.i));
        if StepEnabled(w.storage, st) {
          StepKeepsStorageTried(w.storage, st);
        }
      }
    }
  }

  lemma MoveKeepsUploadTried(w: World, n: nat, m: Move, u: nat)
    requires WorldInv(w, n) && Tried(w) && Possible(w, m) && Later(w, NextWorld(w, m)) && u < |NextWorld(w, m).uploads|
    ensures UploadTried(NextWorld(w, m), u)
  {
    if u < |w.uploads| {
      assert UploadOk(w, u) && UploadTried(w, u);
    }
    OtherUpload(w, m, u);
    UpdatesAreMoves(w, m);
    hide UploadOk, UploadTried, NextWorld, Possible, WorldInv, StorageTried;
    if m.Begin? && u == |w.uploads| {
      BegunTried(w, m);
    } else if m.Place? && u == m.u {
      CanPlace(w, u);
      var up := w.uploads[u];
      if up.phase.r < |Targets(up.ring, PieceHash(up.file, up.phase.i))| {
        PlacedNext(w, u);
      } else {
        PlacedLast(w, u);
      }
    } else if m.Hear? && u == m.u {
      HeardTried(w, u);
    } else if m.Publish? && u == m.u {
      PublishedTried(w, u);
    } else {
      UploadTriedLater(w, NextWorld(w, m), u);
    }
  }

  lemma CanPlace(w: World, u: nat)
    requires Possible(w, Place(u))
    ensures u < |w.uploads| && w.uploads[u].phase.Placing?
  {
  }

  lemma UpdatesAreMoves(w: World, m: Move)
    requires Possible(w, m)
    ensures m.Place? ==> NextWorld(w, m) == DoPlace(w, m.u)
    ensures m.Hear? ==> NextWorld(w, m) == DoHear(w, m.u)
    ensures m.Publish? ==> NextWorld(w, m) == DoPublish(w, m.u)
  {
  }

  lemma MoveKeepsTried(w: World, n: nat, m: Move)
    requires WorldInv(w, n) && Tried(w) && Possible(w, m)
    ensures WorldInv(NextWorld(w, m), n) && Tried(NextWorld(w, m))
  {
    MoveKeepsInv(w, n, m);
    MoveKeepsStorageTried(w, m);
    hide WorldInv, Possible, NextWorld, Later, UploadTried, StorageTried;
    forall u: nat | u < |NextWorld(w, m).uploads|
      ensures UploadTried(NextWorld(w, m), u)
    {
      MoveKeepsUploadTried(w, n, m, u);
    }
  }

  lemma {:induction false} EveryWorldIsTried(n: nat, nodes: set<string>, states: seq<World>, moves: seq<Move>, k: nat)
    requires WorldRun(n, nodes, states, moves) && k < |states|
    ensures WorldInv(states[k], n) && Tried(states[k])
  {
    hide WorldInv, NextWorld, Possible, Tried;
    if k == 0 {
      StartInv(n, nodes);
      StartTried(n, nodes);
    } else {
      EveryWorldIsTried(n, nodes, states, moves, k - 1);
      MoveKeepsTried(states[k - 1], n, moves[k - 1]);
    }
  }

  lemma StartTried(n: nat, nodes: set<string>)
    ensures Tried(Start(n, nodes))
  {
  }

  // ----- Which crashes lose data -----

  /** One of the nodes that the uploader's ring names for the chunk is up. */
  ghost predicate SomeTargetUp(w: World, u: nat, j: nat) {
    u < |w.uploads| &&
    exists node :: node in Targets(w.uploads[u].ring, PieceHash(w.uploads[u].file, j)) && node in w.storage.up
  }

  /** In every run, a published chunk has a live replica if and only if one of its nodes is up, whatever
      crashed before, during or after the upload. */
  lemma LiveIffTargetUp(n: nat, nodes: set<string>, states: seq<World>, moves: seq<Move>, k: nat, u: nat, j: nat)
    requires WorldRun(n, nodes, states, moves) && k < |states|
    requires u < |states[k].uploads| && states[k].uploads[u].phase.Published?
    requires j < PieceCount(|states[k].uploads[u].file|)
    ensures LiveReplica(states[k], states[k].uploads[u].ring, u, j) <==> SomeTargetUp(states[k], u, j)
  {
    hide WorldInv, WorldRun, PieceHash, Targets;
    EveryWorldIsTried(n, nodes, states, moves, k);
    var w := states[k];
    assert UploadTried(w, u);
    var ring, hash := w.uploads[u].ring, PieceHash(w.uploads[u].file, j);
    assert TriedUpTo(w, u, ring, hash, |Targets(ring, hash)|);
    UpTargetIsLive(w, u, j);
  }

  lemma UpTargetIsLive(w: World, u: nat, j: nat)
    requires u < |w.uploads|
    requires var ring, hash := w.uploads[u].ring, PieceHash(w.uploads[u].file, j);
             TriedUpTo(w, u, ring, hash, |Targets(ring, hash)|)
    ensures SomeTargetUp(w, u, j) ==> LiveReplica(w, w.uploads[u].ring, u, j)
  {
    var ring, hash := w.uploads[u].ring, PieceHash(w.uploads[u].file, j);
    hide PieceHash, Targets;
    if SomeTargetUp(w, u, j) {
      var node :| node in Targets(ring, hash) && node in w.storage.up;
      var q: nat :| q < |Targets(ring, hash)| && Targets(ring, hash)[q] == node;
      assert AckedBy(w, u, hash, node);
    }
  }

  /** Two different nodes for every hash, when the ring has two. */
  lemma TwoTargets(ring: Dht.Ring, hash: string)
    requires Dht.WellPlaced(ring) && |ring| >= 2
    ensures |Targets(ring, hash)| == 2 && Targets(ring, hash)[0] != Targets(ring, hash)[1]
    ensures forall node :: node in Targets(ring, hash) <==> node == Targets(ring, hash)[0] || node == Targets(ring, hash)[1]
  {
    Dht.ReplicasAreNearest(ring, hash, REPLICATION_FACTOR);
    Dht.RankedIsDistinct(Targets(ring, hash), hash);
    hide Dht.Replicas, Dht.WellPlaced, Dht.Ranked;
  }

  /** Nodes of the ring that are not up. */
  ghost predicate AtMostOneDown(w: World, ring: Dht.Ring) {
    exists lost: string :: AllUpBut(w, ring, lost)
  }

  ghost predicate AllUpBut(w: World, ring: Dht.Ring, lost: string) {
    forall node :: Dht.Present(ring, node) && node != lost ==> node in w.storage.up
  }

  /** Two replicas are enough for one storage failure: in every run in which at most one node of the
      uploader's ring of two or more is down, whenever it went down, every published chunk has a
      live replica. */
  lemma OneFailureIsSurvived(n: nat, nodes: set<string>, states: seq<World>, moves: seq<Move>, k: nat, u: nat, j: nat)
    requires WorldRun(n, nodes, states, moves) && k < |states|
    requires u < |states[k].uploads| && states[k].uploads[u].phase.Published?
    requires j < PieceCount(|states[k].uploads[u].file|)
    requires Dht.WellPlaced(states[k].uploads[u].ring) && |states[k].uploads[u].ring| >= 2
    requires AtMostOneDown(states[k], states[k].uploads[u].ring)
    ensures LiveReplica(states[k], states[k].uploads[u].ring, u, j)
  {
    var w := states[k];
    var ring, hash := w.uploads[u].ring, PieceHash(w.uploads[u].file, j);
    LiveIffTargetUp(n, nodes, states, moves, k, u, j);
    TwoTargets(ring, hash);
    Dht.ReplicasAreNearest(ring, hash, REPLICATION_FACTOR);
    hide WorldRun, PieceHash, Dht.Replicas, Dht.WellPlaced, Dht.Present, Dht.Ranked;
    var lost: string :| AllUpBut(w, ring, lost);
    var safe := if Targets(ring, hash)[0] == lost then Targets(ring, hash)[1] else Targets(ring, hash)[0];
    assert safe in Targets(ring, hash);
  }

  /** So a download in the uploader's view, once served, does not notice one failure. */
  lemma OneFailureIsInvisible(n: nat, nodes: set<string>, states: seq<World>, moves: seq<Move>, k: nat, d: nat, u: nat)
    requires WorldRun(n, nodes, states, moves) && k < |states| && ServedFrom(states[k], d, u)
    requires states[k].downloads[d].ring == states[k].uploads[u].ring
    requires Dht.WellPlaced(states[k].uploads[u].ring) && |states[k].uploads[u].ring| >= 2
    requires AtMostOneDown(states[k], states[k].uploads[u].ring)
    ensures HasEnded(states[k], d) ==>
              && states[k].downloads[d].phase.Done?
              && ExactOrCollision(states[k].uploads[u].file, states[k].downloads[d].phase.out)
  {
    hide WorldRun, ExactOrCollision, LiveReplica, PieceCount, Meta, Dht.WellPlaced, AtMostOneDown;
    forall j: nat | j < PieceCount(|states[k].uploads[u].file|)
      ensures LiveReplica(states[k], states[k].downloads[d].ring, u, j)
    {
      OneFailureIsSurvived(n, nodes, states, moves, k, u, j);
    }
    ServedUploadIsReturned(n, nodes, states, moves, k, d, u);
  }

  // ----- Any one crash from here on -----

  ghost function Crashed(w: World, node: string): World {
    w.(storage := w.storage.(up := w.storage.up - {node}))
  }

  /** The chunk would have a live replica after the crash of any one node. */
  ghost predicate SurvivesAnyCrash(w: World, u: nat, j: nat) {
    u < |w.uploads| && forall node :: LiveReplica(Crashed(w, node), w.uploads[u].ring, u, j)
  }

  /** A chunk survives any one further crash if and only if both of its nodes have acknowledged it and are
      up. */
  lemma SurvivesAnyCrashIff(w: World, u: nat, j: nat)
    requires u < |w.uploads| && Dht.WellPlaced(w.uploads[u].ring) && |w.uploads[u].ring| >= 2
    ensures SurvivesAnyCrash(w, u, j) <==>
              && FullyReplicated(w, u, j)
              && forall node :: node in Targets(w.uploads[u].ring, PieceHash(w.uploads[u].file, j)) ==> node in w.storage.up
  {
    var ring, hash := w.uploads[u].ring, PieceHash(w.uploads[u].file, j);
    TwoTargets(ring, hash);
    var x, y := Targets(ring, hash)[0], Targets(ring, hash)[1];
    hide PieceHash, Targets, Dht.WellPlaced, AckedBy, FullyReplicated, SurvivesAnyCrash;
    BothAcked(w, u, j, x, y);
    if SurvivesAnyCrash(w, u, j) {
      SurvivalNeedsBoth(w, u, j, x, y);
    } else if Usable(w, u, hash, x) && Usable(w, u, hash, y) {
      BothSurvive(w, u, j, x, y);
    }
  }

  ghost predicate TargetsAre(w: World, u: nat, j: nat, x: string, y: string)
    requires u < |w.uploads|
  {
    forall node :: node in Targets(w.uploads[u].ring, PieceHash(w.uploads[u].file, j)) <==> node == x || node == y
  }

  lemma SurvivalNeedsBoth(w: World, u: nat, j: nat, x: string, y: string)
    requires u < |w.uploads| && TargetsAre(w, u, j, x, y) && x != y && SurvivesAnyCrash(w, u, j)
    ensures var hash := PieceHash(w.uploads[u].file, j); Usable(w, u, hash, x) && Usable(w, u, hash, y)
  {
    hide PieceHash, TargetsAre, Usable, LiveReplica, Crashed;
    var ring := w.uploads[u].ring;
    assert LiveReplica(Crashed(w, x), ring, u, j) && LiveReplica(Crashed(w, y), ring, u, j);
    LiveIsUsable(w, x, u, j, x, y);
    LiveIsUsable(w, y, u, j, x, y);
  }

  lemma BothSurvive(w: World, u: nat, j: nat, x: string, y: string)
    requires u < |w.uploads| && TargetsAre(w, u, j, x, y) && x != y
    requires var hash := PieceHash(w.uploads[u].file, j); Usable(w, u, hash, x) && Usable(w, u, hash, y)
    ensures SurvivesAnyCrash(w, u, j)
  {
    hide PieceHash, TargetsAre, Usable, LiveReplica, Crashed;
    forall lost
      ensures LiveReplica(Crashed(w, lost), w.uploads[u].ring, u, j)
    {
      LiveIsUsable(w, lost, u, j, x, y);
    }
  }

  lemma BothAcked(w: World, u: nat, j: nat, x: string, y: string)
    requires u < |w.uploads| && TargetsAre(w, u, j, x, y)
    ensures var hash := PieceHash(w.uploads[u].file, j);
            FullyReplicated(w, u, j) <==> AckedBy(w, u, hash, x) && AckedBy(w, u, hash, y)
  {
    var hash := PieceHash(w.uploads[u].file, j);
    hide PieceHash, Targets;
    assert FullyReplicated(w, u, j) <==>
      forall node :: node in Targets(w.uploads[u].ring, hash) ==> AckedBy(w, u, hash, node);
  }

  ghost predicate Usable(w: World, u: nat, hash: string, node: string) {
    AckedBy(w, u, hash, node) && node in w.storage.up
  }

  lemma LiveIsUsable(w: World, lost: string, u: nat, j: nat, x: string, y: string)
    requires u < |w.uploads| && TargetsAre(w, u, j, x, y)
    ensures LiveReplica(Crashed(w, lost), w.uploads[u].ring, u, j) <==>
            (lost != x && Usable(w, u, PieceHash(w.uploads[u].file, j), x)) ||
            (lost != y && Usable(w, u, PieceHash(w.uploads[u].file, j), y))
  {
    hide PieceHash, Targets;
  }
}
