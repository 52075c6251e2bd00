/** What two replicas do not promise: a run in which an upload is acknowledged while one of its two
    nodes is down, the other node crashes afterwards, and the download fails. The metadata is
    served, and nothing but the two storage nodes has failed. */
module DataLoss {
  import opened Common
  import opened Words
  import opened FileUtils
  import opened MapObject
  import opened MetadataNodes
  import opened StorageSystem
  import opened DataPath
  import opened DataPathInvariant
  import opened Replication
  import Dht = ConsistentHashing
  import Chain = ChainSystem
  import EndToEnd
  import Sha256

  // ----- Reaching a state move by move -----

  /** Some run passes through the first state and ends in the second. */
  ghost predicate Reached(nodes: set<string>, from: World, w: World) {
    exists states, moves, k :: Passes(nodes, from, w, states, moves, k)
  }

  ghost predicate Passes(nodes: set<string>, from: World, w: World, states: seq<World>, moves: seq<Move>, k: nat) {
    WorldRun(1, nodes, states, moves) && k <= |moves| && states[k] == from && states[|moves|] == w
  }

  lemma Go(nodes: set<string>, from: World, w: World, m: Move)
    requires Reached(nodes, from, w) && Possible(w, m)
    ensures Reached(nodes, from, NextWorld(w, m))
  {
    hide Possible, NextWorld, Start;
    var states, moves, k :| Passes(nodes, from, w, states, moves, k);
    var states2, moves2 := states + [NextWorld(w, m)], moves + [m];
    forall i: nat | i < |moves2|
      ensures Possible(states2[i], moves2[i]) && states2[i + 1] == NextWorld(states2[i], moves2[i])
    {
      if i < |moves| {
        assert Possible(states[i], moves[i]) && states[i + 1] == NextWorld(states[i], moves[i]);
      }
    }
    assert Passes(nodes, from, NextWorld(w, m), states2, moves2, k);
  }

  lemma StartReached(nodes: set<string>)
    ensures Reached(nodes, Start(1, nodes), Start(1, nodes))
  {
    assert Passes(nodes, Start(1, nodes), Start(1, nodes), [Start(1, nodes)], [], 0);
  }

  lemma FromHere(nodes: set<string>, from: World, w: World)
    requires Reached(nodes, from, w)
    ensures Reached(nodes, w, w)
  {
    hide WorldRun;
    var states, moves, k :| Passes(nodes, from, w, states, moves, k);
    assert Passes(nodes, w, w, states, moves, |moves|);
  }

  // ----- The data -----

  /** A file of one chunk, and a ring whose two nodes for it exist. */
  ghost predicate Setting(nodes: set<string>, file: seq<Byte>, base: string, ring: Dht.Ring) {
    && Uploadable(file, base) && PieceCount(|file|) == 1 && Dht.WellPlaced(ring) && |ring| >= 2
    && forall node :: Dht.Present(ring, node) ==> node in nodes
  }

  /** The upload with its metadata, and the chunk with its hash and its two nodes. */
  datatype Case = Case(file: seq<Byte>, base: string, ring: Dht.Ring, hash: string, data: seq<Byte>, x: string, y: string)

  ghost predicate IsCase(nodes: set<string>, c: Case) {
    && Uploadable(c.file, c.base) && PieceCount(|c.file|) == 1 && Dht.WellPlaced(c.ring)
    && c.hash == PieceHash(c.file, 0) && c.data == Piece(c.file, 0) && c.data != []
    && Targets(c.ring, c.hash) == [c.x, c.y] && c.x != c.y && c.x in nodes && c.y in nodes
  }

  lemma CaseOf(nodes: set<string>, file: seq<Byte>, base: string, ring: Dht.Ring) returns (c: Case)
    requires Setting(nodes, file, base, ring)
    ensures IsCase(nodes, c) && c.file == file && c.base == base && c.ring == ring
  {
    hide PieceHash, Piece, Dht.WellPlaced, Dht.Replicas, Dht.Present, Dht.Ranked, Uploadable, PieceCount, Targets;
    var hash := PieceHash(file, 0);
    ChunkIsNotEmpty(file, 0);
    TargetsExist(nodes, ring, hash);
    c := Case(file, base, ring, hash, Piece(file, 0), Targets(ring, hash)[0], Targets(ring, hash)[1]);
  }

  lemma TargetsExist(nodes: set<string>, ring: Dht.Ring, hash: string)
    requires Dht.WellPlaced(ring) && |ring| >= 2 && forall node :: Dht.Present(ring, node) ==> node in nodes
    ensures |Targets(ring, hash)| == 2 && Targets(ring, hash)[0] != Targets(ring, hash)[1]
    ensures Targets(ring, hash)[0] in nodes && Targets(ring, hash)[1] in nodes
  {
    hide Dht.WellPlaced, Dht.Replicas, Dht.Present, Dht.Ranked;
    TwoTargets(ring, hash);
    Dht.ReplicasAreNearest(ring, hash, REPLICATION_FACTOR);
    assert Targets(ring, hash)[0] in Targets(ring, hash) && Targets(ring, hash)[1] in Targets(ring, hash);
  }

  // ----- The upload, with one of its nodes down -----

  ghost function TheUpload(c: Case, phase: UploadPhase): Upload {
    Upload(c.file, c.base, c.ring, phase)
  }

  ghost function OneConn(nodes: set<string>, c: Case, phase: Phase): Storage {
    NoBlobs(nodes).(up := nodes - {c.x}, conns := [Conn(0, c.y, c.hash, c.data, phase)])
  }

  /** Node x crashes, the upload begins, skips x and connects to y. */
  lemma Connects(nodes: set<string>, from: World, c: Case) returns (w: World)
    requires IsCase(nodes, c) && from == Start(1, nodes)
    ensures Reached(nodes, from, w)
    ensures w == World(OneConn(nodes, c, Connected), Chain.Initial(1), [TheUpload(c, Sending(0, 1, 0, 0))], [])
  {
    hide PieceHash, Piece, Targets, Uploadable, PieceCount, Dht.WellPlaced, Sha256.Digest;
    w := Start(1, nodes);
    StartReached(nodes);
    Go(nodes, from, w, StorageMove(Kill(c.x)));
    w := NextWorld(w, StorageMove(Kill(c.x)));
    Go(nodes, from, w, Begin(c.file, c.base, c.ring));
    w := NextWorld(w, Begin(c.file, c.base, c.ring));
    w := SkipsX(nodes, from, c, w);
    w := OpensY(nodes, from, c, w);
  }

  lemma SkipsX(nodes: set<string>, from: World, c: Case, w: World) returns (t: World)
    requires IsCase(nodes, c) && Reached(nodes, from, w)
    requires w == World(NoBlobs(nodes).(up := nodes - {c.x}), Chain.Initial(1), [TheUpload(c, Placing(0, 0, 0))], [])
    ensures Reached(nodes, from, t) && t == w.(uploads := [TheUpload(c, Placing(0, 1, 0))])
  {
    hide PieceHash, Piece, Targets, Uploadable, PieceCount, Dht.WellPlaced, Sha256.Digest;
    Go(nodes, from, w, Place(0));
    t := DoPlace(w, 0);
  }

  lemma OpensY(nodes: set<string>, from: World, c: Case, w: World) returns (t: World)
    requires IsCase(nodes, c) && Reached(nodes, from, w)
    requires w == World(NoBlobs(nodes).(up := nodes - {c.x}), Chain.Initial(1), [TheUpload(c, Placing(0, 1, 0))], [])
    ensures Reached(nodes, from, t)
    ensures t == World(OneConn(nodes, c, Connected), Chain.Initial(1), [TheUpload(c, Sending(0, 1, 0, 0))], [])
  {
    HashOfPiece(c.file);
    hide PieceHash, Piece, Targets, Uploadable, PieceCount, Dht.WellPlaced, Sha256.Digest;
    Go(nodes, from, w, Place(0));
    t := DoPlace(w, 0);
  }

  lemma HashOfPiece(file: seq<Byte>)
    ensures PieceHash(file, 0) == Sha256.Digest(Piece(file, 0))
  {
    hide Sha256.Digest, Piece;
  }

  /** The storage after y has acknowledged the chunk. */
  ghost function Stored1(nodes: set<string>, c: Case): Storage
    requires c.y in nodes
  {
    OneConn(nodes, c, Acked).(blobs := NoBlobs(nodes).blobs[c.y := map[c.hash := c.data]])
  }

  lemma Stores(nodes: set<string>, from: World, c: Case, w: World) returns (t: World)
    requires IsCase(nodes, c) && Reached(nodes, from, w) && w.storage == OneConn(nodes, c, Connected)
    ensures Reached(nodes, from, t) && t == w.(storage := Stored1(nodes, c))
  {
    hide PieceHash, Piece, Targets, Uploadable, PieceCount, Dht.WellPlaced, Sha256.Digest;
    Go(nodes, from, w, StorageMove(SayReady(0)));
    t := NextWorld(w, StorageMove(SayReady(0)));
    Go(nodes, from, t, StorageMove(SendData(0)));
    t := NextWorld(t, StorageMove(SendData(0)));
    Go(nodes, from, t, StorageMove(Commit(0)));
    t := NextWorld(t, StorageMove(Commit(0)));
    Go(nodes, from, t, StorageMove(SayAck(0)));
    t := NextWorld(t, StorageMove(SayAck(0)));
    assert t.storage.blobs == Stored1(nodes, c).blobs;
    assert t.storage.conns == Stored1(nodes, c).conns;
  }

  /** The acknowledgement is heard; both nodes have been tried, and there are no more chunks. */
  lemma Hears(nodes: set<string>, from: World, c: Case, w: World) returns (t: World)
    requires IsCase(nodes, c) && Reached(nodes, from, w)
    requires w == World(Stored1(nodes, c), Chain.Initial(1), [TheUpload(c, Sending(0, 1, 0, 0))], [])
    ensures Reached(nodes, from, t) && t == w.(uploads := [TheUpload(c, Publishing)])
  {
    hide PieceHash, Piece, Targets, Uploadable, PieceCount, Dht.WellPlaced, Sha256.Digest, Reached;
    Go(nodes, from, w, Hear(0));
    t := DoHear(w, 0);
    assert t == w.(uploads := [TheUpload(c, Placing(0, 2, 1))]);
    Go(nodes, from, t, Place(0));
    t := DoPlace(t, 0);
  }

  lemma Publishes(nodes: set<string>, from: World, c: Case, w: World) returns (t: World)
    requires IsCase(nodes, c) && Reached(nodes, from, w)
    requires w == World(Stored1(nodes, c), Chain.Initial(1), [TheUpload(c, Publishing)], [])
    ensures Reached(nodes, from, t) && t.storage == w.storage && t.downloads == []
    ensures t.chain == Chain.Initial(1).(ops := [Chain.Op(PutCall(MetadataOf(c.file, c.base)), 0, None, None)])
    ensures t.uploads == [TheUpload(c, Published(0))]
  {
    hide *;
    ToPublish(nodes, c, w);
    EndToEnd.MetaIsWellFormed(c.file, c.base);
    EndToEnd.CanPublish(w, 0);
    Go(nodes, from, w, Publish(0));
    t := NextWorld(w, Publish(0));
    InitialChain();
    PublishedNow(c, w);
  }

  lemma ToPublish(nodes: set<string>, c: Case, w: World)
    requires IsCase(nodes, c) && w.uploads == [TheUpload(c, Publishing)]
    ensures Uploadable(c.file, c.base) && w.uploads[0].phase.Publishing?
    ensures w.uploads[0].file == c.file && w.uploads[0].base == c.base
  {
    hide PieceHash, Piece, Targets, Uploadable, PieceCount, Dht.WellPlaced;
  }

  lemma PublishedNow(c: Case, w: World)
    requires w.uploads == [TheUpload(c, Publishing)] && Possible(w, Publish(0)) && w.chain.ops == []
    ensures var t := NextWorld(w, Publish(0));
            && t.storage == w.storage && t.downloads == w.downloads && t.uploads == [TheUpload(c, Published(0))]
            && t.chain == w.chain.(ops := [Chain.Op(PutCall(MetadataOf(c.file, c.base)), 0, None, None)])
  {
    hide MetadataOf, Chain.Enabled;
    assert [] + [Chain.Op(PutCall(Meta(w.uploads[0])), 0, None, None)] ==
           [Chain.Op(PutCall(MetadataOf(c.file, c.base)), 0, None, None)];
  }

  // ----- The chain of one node -----

  ghost function ChainMoved(w: World, st: Chain.Step): World
    requires Chain.Enabled(w.chain, st)
  {
    w.(chain := Chain.Next(w.chain, st))
  }

  lemma GoChain(nodes: set<string>, from: World, w: World, st: Chain.Step) returns (t: World)
    requires Reached(nodes, from, w) && Chain.Enabled(w.chain, st) && !st.InvokePut? && !st.InvokeGet?
    ensures Reached(nodes, from, t) && t == ChainMoved(w, st)
  {
    hide Chain.Enabled, Chain.Next, Reached;
    Go(nodes, from, w, ChainMove(st));
    t := NextWorld(w, ChainMove(st));
  }

  /** The chain's only node is up and holds the metadata, and the upload has been acknowledged. */
  ghost predicate Serves(s: Chain.Sys, meta: FileMetadata) {
    && |s.ops| == 1 && s.ops[0].result == Some(PutAcked) && |s.frames| == 1
    && s.nodes == [Stored(Constructed(NO_PORT), meta)] && s.alive == [true] && |s.applied| == 1 && |s.suspect| == 1
  }

  lemma InitialChain()
    ensures Chain.Initial(1) == Chain.Sys([Constructed(NO_PORT)], [true], [false], [], [], [{}], {})
  {
  }

  /** The chain's only node stores the metadata and acknowledges it. */
  lemma ChainStores(nodes: set<string>, from: World, w: World, meta: FileMetadata) returns (t: World)
    requires Reached(nodes, from, w) && w.chain == Chain.Initial(1).(ops := [Chain.Op(PutCall(meta), 0, None, None)])
    ensures Reached(nodes, from, t) && t == w.(chain := t.chain)
    ensures Serves(t.chain, meta)
  {
    InitialChain();
    hide Reached, Chain.Initial;
    t := GoChain(nodes, from, w, Chain.ClientConnect(0));
    t := GoChain(nodes, from, t, Chain.Store(0));
    assert t.chain.nodes == [Stored(Constructed(NO_PORT), meta)];
    t := ChainReplies(nodes, from, t, meta);
  }

  lemma ChainReplies(nodes: set<string>, from: World, w: World, meta: FileMetadata) returns (t: World)
    requires Reached(nodes, from, w) && w.chain.nodes == [Stored(Constructed(NO_PORT), meta)] && w.chain.alive == [true]
    requires w.chain.ops == [Chain.Op(PutCall(meta), 0, Some(0), None)] && |w.chain.applied| == |w.chain.suspect| == 1
    requires w.chain.frames == [Chain.PutFrame(0, 0, None, Chain.Written)]
    ensures Reached(nodes, from, t) && t == w.(chain := t.chain)
    ensures Serves(t.chain, meta)
  {
    hide Reached;
    t := GoChain(nodes, from, w, Chain.Decide(0));
    t := GoChain(nodes, from, t, Chain.ClientReply(0));
  }

  lemma Asks(nodes: set<string>, from: World, w: World, meta: FileMetadata, ring: Dht.Ring) returns (t: World)
    requires Reached(nodes, from, w) && Dht.WellPlaced(ring) && w.downloads == [] && Serves(w.chain, meta)
    ensures Reached(nodes, from, t) && t.storage == w.storage && t.uploads == w.uploads
    ensures t.downloads == [Download(meta.filename, ring, 1, 0, Asking)]
    ensures t.chain == w.chain.(ops := [w.chain.ops[0], Chain.Op(GetCall(meta.filename), 0, None, None)])
  {
    hide Dht.WellPlaced, Reached;
    Go(nodes, from, w, Ask(meta.filename, ring));
    t := NextWorld(w, Ask(meta.filename, ring));
  }

  /** The node looks the name up and answers. */
  lemma Tells(nodes: set<string>, from: World, w: World, s: Chain.Sys, meta: FileMetadata) returns (t: World)
    requires Reached(nodes, from, w) && Serves(s, meta)
    requires w.chain == s.(ops := [s.ops[0], Chain.Op(GetCall(meta.filename), 0, None, None)])
    ensures Reached(nodes, from, t) && t == w.(chain := t.chain)
    ensures |t.chain.ops| == 2 && t.chain.ops[1].result == Some(GetFound(meta))
  {
    hide Reached;
    t := GoChain(nodes, from, w, Chain.ClientConnect(1));
    t := GoChain(nodes, from, t, Chain.CheckRole(1));
    t := GoChain(nodes, from, t, Chain.Lookup(1));
    t := GoChain(nodes, from, t, Chain.ClientReply(1));
  }

  lemma Learns(nodes: set<string>, from: World, w: World, meta: FileMetadata, ring: Dht.Ring) returns (t: World)
    requires Reached(nodes, from, w) && |w.chain.ops| == 2 && w.chain.ops[1].result == Some(GetFound(meta))
    requires w.downloads == [Download(meta.filename, ring, 1, 0, Asking)]
    ensures Reached(nodes, from, t) && t.storage == w.storage && t.uploads == w.uploads
    ensures t.downloads == [Download(meta.filename, ring, 1, 2, Fetching(meta, 0, 0, []))]
  {
    hide Reached;
    Go(nodes, from, w, Answer(0));
    t := NextWorld(w, Answer(0));
  }

  // ----- The loss -----

  lemma Fails(nodes: set<string>, from: World, c: Case, w: World, meta: FileMetadata) returns (t: World)
    requires IsCase(nodes, c) && Reached(nodes, from, w) && meta.chunkHashes == [c.hash]
    requires w.downloads == [Download(meta.filename, c.ring, 1, 2, Fetching(meta, 0, 0, []))]
    requires c.x !in w.storage.up && c.y !in w.storage.up
    ensures Reached(nodes, from, t) && t == w.(downloads := [Download(meta.filename, c.ring, 1, 2, FailedAt(meta, 0))])
  {
    hide PieceHash, Piece, Targets, Uploadable, PieceCount, Dht.WellPlaced, Sha256.Digest;
    Go(nodes, from, w, Fetch(0));
    t := DoFetch(w, 0);
    Go(nodes, from, t, Fetch(0));
    t := DoFetch(t, 0);
    Go(nodes, from, t, Fetch(0));
    t := DoFetch(t, 0);
  }

  /** For every file of one chunk and every ring of two nodes or more there is a run, with a chain of one
      node in which nothing fails, that passes through state w and ends in t: in w the upload has been
      acknowledged although one of its nodes was down; from then on only the other one crashes; in t a
      download has been told the metadata and has failed. */
  lemma AcknowledgedUploadIsLost(nodes: set<string>, file: seq<Byte>, base: string, ring: Dht.Ring)
      returns (w: World, t: World, x: string, y: string)
    requires Setting(nodes, file, base, ring)
    ensures Reached(nodes, w, t)
    ensures |w.uploads| == 1 && w.uploads[0] == Upload(file, base, ring, Published(0))
    ensures Serves(w.chain, MetadataOf(file, base)) && w.downloads == []
    ensures EndToEnd.LiveReplica(w, ring, 0, 0) && w.storage.up == nodes - {x} && x in nodes && y in nodes && x != y
    ensures t.uploads == w.uploads && t.storage == Crashed(w, y).storage
    ensures |t.downloads| == 1 && t.downloads[0].phase == FailedAt(MetadataOf(file, base), 0)
  {
    hide *;
    var c := CaseOf(nodes, file, base, ring);
    var from := Start(1, nodes);
    x, y := c.x, c.y;
    w := Connects(nodes, from, c);
    w := Stores(nodes, from, c, w);
    w := Hears(nodes, from, c, w);
    w := Publishes(nodes, from, c, w);
    w := ChainStores(nodes, from, w, MetadataOf(file, base));
    StoredIsLive(nodes, c, w);
    UploadIs(c);
    FromHere(nodes, from, w);
    t := Lost(nodes, w, c, w);
  }

  lemma UploadIs(c: Case)
    ensures TheUpload(c, Published(0)) == Upload(c.file, c.base, c.ring, Published(0))
  {
  }

  lemma StoredIsLive(nodes: set<string>, c: Case, w: World)
    requires IsCase(nodes, c) && w.storage == Stored1(nodes, c) && w.uploads == [TheUpload(c, Published(0))]
    ensures EndToEnd.LiveReplica(w, c.ring, 0, 0)
    ensures w.storage.up == nodes - {c.x} && c.x in nodes && c.y in nodes && c.x != c.y
  {
    hide PieceHash, Piece, Targets, Uploadable, PieceCount, Dht.WellPlaced, Sha256.Digest;
    assert w.storage.conns[0].node == Targets(c.ring, c.hash)[1];
  }

  lemma Lost(nodes: set<string>, from: World, c: Case, w: World) returns (t: World)
    requires IsCase(nodes, c) && Reached(nodes, from, w) && w.storage == Stored1(nodes, c) && w.downloads == []
    requires Serves(w.chain, MetadataOf(c.file, c.base))
    ensures Reached(nodes, from, t) && t.uploads == w.uploads && t.storage == Crashed(w, c.y).storage
    ensures |t.downloads| == 1 && t.downloads[0].phase == FailedAt(MetadataOf(c.file, c.base), 0)
  {
    hide *;
    WhoIsUp(nodes, c, w);
    OneHash(c);
    var meta := MetadataOf(c.file, c.base);
    t := Kills(nodes, from, c, w);
    t := Asks(nodes, from, t, meta, c.ring);
    t := Tells(nodes, from, t, w.chain, meta);
    t := Learns(nodes, from, t, meta, c.ring);
    t := Fails(nodes, from, c, t, meta);
  }

  lemma WhoIsUp(nodes: set<string>, c: Case, w: World)
    requires IsCase(nodes, c) && w.storage == Stored1(nodes, c)
    ensures PieceCount(|c.file|) == 1 && c.hash == PieceHash(c.file, 0)
    ensures c.y in w.storage.up && Dht.WellPlaced(c.ring)
    ensures c.x !in Crashed(w, c.y).storage.up && c.y !in Crashed(w, c.y).storage.up
  {
    hide PieceHash, Piece, Targets, Uploadable, PieceCount, Dht.WellPlaced;
  }

  lemma Kills(nodes: set<string>, from: World, c: Case, w: World) returns (t: World)
    requires Reached(nodes, from, w) && c.y in w.storage.up
    ensures Reached(nodes, from, t) && t == Crashed(w, c.y)
    ensures t.chain == w.chain && t.uploads == w.uploads && t.downloads == w.downloads
  {
    hide Reached;
    Go(nodes, from, w, StorageMove(Kill(c.y)));
    t := NextWorld(w, StorageMove(Kill(c.y)));
  }

  lemma OneHash(c: Case)
    requires PieceCount(|c.file|) == 1 && c.hash == PieceHash(c.file, 0)
    ensures MetadataOf(c.file, c.base).chunkHashes == [c.hash]
  {
    EndToEnd.HashesOfPieces(c.file);
    hide PieceHash, PieceCount;
  }
}
