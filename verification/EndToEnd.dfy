/** What the store promises its users, over every run of the data path: metadata never runs ahead of
    the data, a download that finishes has written exactly an uploaded file unless the run exhibits
    a SHA-256 collision, and it fails only if the replicas of a chunk were lost. */
module EndToEnd {
  import opened Common
  import opened Words
  import opened FileUtils
  import opened HashUtils
  import opened MapObject
  import opened StorageSystem
  import opened DataPath
  import opened DataPathInvariant
  import Dht = ConsistentHashing
  import ChainAnswers
  import Sha256
  import Wire

  // ----- Publishing -----

  /** The metadata of every file that can be uploaded survives the text protocol. */
  lemma MetaIsWellFormed(file: seq<Byte>, base: string)
    requires Uploadable(file, base)
    ensures Wire.WellFormed(MetadataOf(file, base))
  {
    var hashes := FileHashes(file);
    EmptyFileHasNoPieces(file);
    FileHashAt(file);
    DigestIsToken(Bytes(Concat(hashes)));
    hide Sha256.Digest, Piece, PieceCount, Concat, Bytes, Wire.Token;
    forall h | h in hashes
      ensures Wire.Token(h) && ',' !in h
    {
      var i :| 0 <= i < |hashes| && hashes[i] == h;
      DigestIsToken(Piece(file, i));
    }
  }

  /** So the text of a PUT never stands in the way: an upload whose chunks are placed can publish. */
  lemma PublishIsPossible(w: World, n: nat, u: nat)
    requires WorldInv(w, n) && u < |w.uploads| && w.uploads[u].phase.Publishing?
    ensures Possible(w, Publish(u))
  {
    hide *;
    EveryUploadIsUploadable(w, n, u);
    MetaIsWellFormed(w.uploads[u].file, w.uploads[u].base);
    CanPublish(w, u);
  }

  lemma EveryUploadIsUploadable(w: World, n: nat, u: nat)
    requires WorldInv(w, n) && u < |w.uploads|
    ensures Uploadable(w.uploads[u].file, w.uploads[u].base)
  {
    assert UploadOk(w, u);
    hide Uploadable, StorageInv, ChainSound, Conns, Puts, Downloads;
  }

  lemma CanPublish(w: World, u: nat)
    requires u < |w.uploads| && w.uploads[u].phase.Publishing?
    requires Wire.WellFormed(MetadataOf(w.uploads[u].file, w.uploads[u].base))
    ensures Possible(w, Publish(u))
  {
    hide MetadataOf, Wire.WellFormed;
  }

  // ----- Metadata never runs ahead of the data -----

  /** A node in the replica set of the hash, as the uploader saw it, has acknowledged the chunk
      with this hash and still has it. */
  ghost predicate AcknowledgedReplica(w: World, ring: Dht.Ring, hash: string) {
    exists c: nat :: c < |w.storage.conns| && w.storage.conns[c].phase.Acked? && w.storage.conns[c].hash == hash
      && w.storage.conns[c].node in Targets(ring, hash) && Holds(w.storage, w.storage.conns[c].node, hash)
  }

  lemma PublishedIsAccepted(w: World, n: nat, o: nat) returns (u: nat)
    requires WorldInv(w, n) && o < |w.chain.ops| && w.chain.ops[o].call.PutCall?
    ensures u < |w.uploads| && w.uploads[u].phase == Published(o) && Meta(w.uploads[u]) == w.chain.ops[o].call.meta
    ensures AcceptedUpTo(w, u, PieceCount(|w.uploads[u].file|)) && Uploadable(w.uploads[u].file, w.uploads[u].base)
  {
    hide ChainSound, StorageInv, Conns, Downloads, Meta, AcceptedUpTo, Uploadable, PieceCount;
    assert PutPublished(w, o);
    u :| u < |w.uploads| && w.uploads[u].phase == Published(o) && Meta(w.uploads[u]) == w.chain.ops[o].call.meta;
    assert UploadOk(w, u);
  }

  lemma AcceptedIsHeld(w: World, u: nat, j: nat)
    requires StorageInv(w.storage) && Accepted(w, u, j)
    ensures u < |w.uploads| && AcknowledgedReplica(w, w.uploads[u].ring, PieceHash(w.uploads[u].file, j))
  {
    hide Sha256.Digest, Targets, Piece;
    var c: nat :| AcceptedBy(w, u, j, c);
    assert ConnOk(w.storage, c);
  }

  /** In every state of every run: whatever metadata any node of the chain holds, every chunk hash in
      it has been acknowledged by a storage node in the two-replica set of that hash. */
  lemma MetadataBehindData(n: nat, nodes: set<string>, states: seq<World>, moves: seq<Move>, k: nat, i: nat, name: string)
      returns (u: nat)
    requires WorldRun(n, nodes, states, moves) && k < |states|
    requires i < |states[k].chain.nodes| && name in states[k].chain.nodes[i].store
    ensures var w, meta := states[k], states[k].chain.nodes[i].store[name];
            && u < |w.uploads| && w.uploads[u].phase.Published? && w.uploads[u].base == name
            && meta == Meta(w.uploads[u])
            && forall j: nat :: j < |meta.chunkHashes| ==> AcknowledgedReplica(w, w.uploads[u].ring, meta.chunkHashes[j])
  {
    EveryWorldIsSound(n, nodes, states, moves, k);
    var w := states[k];
    var meta := w.chain.nodes[i].store[name];
    ChainAnswers.StoredWasPut(w.chain, n, i, name);
    var o: nat :| o < |w.chain.ops| && w.chain.ops[o].call == PutCall(meta);
    u := PublishedIsAccepted(w, n, o);
    hide WorldRun, AcknowledgedReplica, AcceptedUpTo, FileHashes, RootHash, ChainSound, Uploads, Conns, Puts, Downloads;
    EveryHashIsHeld(w, u);
  }

  lemma EveryHashIsHeld(w: World, u: nat)
    requires StorageInv(w.storage) && u < |w.uploads| && AcceptedUpTo(w, u, PieceCount(|w.uploads[u].file|))
    ensures forall j: nat :: j < |FileHashes(w.uploads[u].file)| ==>
              AcknowledgedReplica(w, w.uploads[u].ring, FileHashes(w.uploads[u].file)[j])
  {
    var file := w.uploads[u].file;
    FileHashAt(file);
    hide AcknowledgedReplica, AcceptedUpTo, Sha256.Digest, Piece, StorageInv;
    forall j: nat | j < |FileHashes(file)|
      ensures AcknowledgedReplica(w, w.uploads[u].ring, FileHashes(file)[j])
    {
      AcceptedAt(w, u, PieceCount(|file|), j);
      AcceptedIsHeld(w, u, j);
      assert FileHashes(file)[j] == PieceHash(file, j);
    }
  }

  lemma AcceptedAt(w: World, u: nat, n: nat, j: nat)
    requires AcceptedUpTo(w, u, n) && j < n
    ensures Accepted(w, u, j)
  {
  }

  // ----- A finished download -----

  lemma {:induction false} GluedIsJoined(hashes: seq<string>, got: seq<seq<Byte>>)
    requires |hashes| == |got|
    ensures forall c :: c in Received(hashes, got) ==> Sound(c)
    ensures Joined(Received(hashes, got)) == Glue(got)
  {
    if got != [] {
      var n := |got| - 1;
      GluedIsJoined(hashes[..n], got[..n]);
    }
  }

  /** What a finished download holds is what the reconstruction of its chunks writes. */
  lemma GluedIsReconstructed(hashes: seq<string>, got: seq<seq<Byte>>)
    requires |hashes| == |got| && got != []
    ensures forall c :: c in Received(hashes, got) ==> Sound(c)
    ensures Complete(Received(hashes, got)) && Reconstructs(Received(hashes, got), Glue(got))
  {
    GluedIsJoined(hashes, got);
    var chunks := Received(hashes, got);
    assert Indices(chunks) == UpTo(|chunks|);
    assert InOrder(chunks);
  }

  lemma {:induction false} GluedPieces(file: seq<Byte>, got: seq<seq<Byte>>)
    requires forall j: nat :: j < |got| ==> got[j] == Piece(file, j)
    ensures Glue(got) == file[..Cut(|file|, |got|)]
  {
    if got != [] {
      var n := |got| - 1;
      GluedPieces(file, got[..n]);
      hide Cut, Piece;
      OneMorePiece(file, n);
    }
  }

  /** The bytes of the file, or a piece of it and different bytes with the same digest. */
  ghost predicate ExactOrCollision(file: seq<Byte>, out: seq<Byte>) {
    out == file || exists j: nat, y :: j < PieceCount(|file|) && Collision(Piece(file, j), y)
  }

  lemma GotIsExact(file: seq<Byte>, meta: FileMetadata, got: seq<seq<Byte>>)
    requires meta.chunkHashes == FileHashes(file) && GotOk(meta, got) && |got| == |meta.chunkHashes|
    ensures ExactOrCollision(file, Glue(got))
  {
    FileHashAt(file);
    hide Sha256.Digest, Piece, PieceCount;
    if forall j: nat :: j < |got| ==> got[j] == Piece(file, j) {
      GluedPieces(file, got);
      CutGrows(|file|, |got|);
      assert file[..|file|] == file;
    } else {
      var j: nat :| j < |got| && got[j] != Piece(file, j);
      assert Collision(Piece(file, j), got[j]);
    }
  }

  lemma AnsweredByUpload(w: World, n: nat, down: Download, meta: FileMetadata) returns (u: nat)
    requires WorldInv(w, n) && DataPathInvariant.Answered(w, down, meta)
    ensures u < |w.uploads| && w.uploads[u].phase.Published? && w.uploads[u].phase.op < down.known
    ensures w.uploads[u].base == down.name && Meta(w.uploads[u]) == meta
    ensures AcceptedUpTo(w, u, PieceCount(|w.uploads[u].file|)) && Uploadable(w.uploads[u].file, w.uploads[u].base)
  {
    var p: nat :| p < down.known && w.chain.ops[p].call == PutCall(meta);
    u := PublishedIsAccepted(w, n, p);
    hide WorldInv;
  }

  /** A download that finishes has written the bytes of a file that some client uploaded under
      that name, or the run exhibits a collision with one of that file's chunks. */
  lemma DownloadIsExact(n: nat, nodes: set<string>, states: seq<World>, moves: seq<Move>, k: nat, d: nat)
      returns (u: nat)
    requires WorldRun(n, nodes, states, moves) && k < |states|
    requires d < |states[k].downloads| && states[k].downloads[d].phase.Done?
    ensures ServedFrom(states[k], d, u) && states[k].uploads[u].base == states[k].downloads[d].name
    ensures ExactOrCollision(states[k].uploads[u].file, states[k].downloads[d].phase.out)
  {
    var w := states[k];
    hide WorldRun, WorldInv, ExactOrCollision, DataPathInvariant.Answered, Meta;
    EveryWorldIsSound(n, nodes, states, moves, k);
    AnswerIsKnown(w, n, d);
    u := AnsweredByUpload(w, n, w.downloads[d], w.downloads[d].phase.meta);
    ServedIsExact(w, n, d, u);
  }

  // ----- A failed download -----

  /** A replica in the downloader's view has acknowledged chunk j to upload u and is up. */
  ghost predicate LiveReplica(w: World, ring: Dht.Ring, u: nat, j: nat) {
    exists c: nat :: c < |w.storage.conns| && u < |w.uploads| && w.storage.conns[c].owner == u
      && w.storage.conns[c].phase.Acked? && w.storage.conns[c].hash == PieceHash(w.uploads[u].file, j)
      && w.storage.conns[c].node in Targets(ring, PieceHash(w.uploads[u].file, j))
      && w.storage.conns[c].node in w.storage.up
  }

  /** The download has been answered with the metadata of upload u. */
  ghost predicate ServedFrom(w: World, d: nat, u: nat) {
    && d < |w.downloads| && u < |w.uploads|
    && (var phase := w.downloads[d].phase;
        && (phase.Fetching? || phase.Done? || phase.FailedAt?) && phase.meta == Meta(w.uploads[u]))
    && w.uploads[u].phase.Published? && w.uploads[u].phase.op < w.downloads[d].known
  }

  /** Every chunk of upload u has a live replica in the view of download d. */
  ghost predicate AllLive(w: World, d: nat, u: nat) {
    d < |w.downloads| && u < |w.uploads| &&
    forall j: nat :: j < PieceCount(|w.uploads[u].file|) ==> LiveReplica(w, w.downloads[d].ring, u, j)
  }

  lemma MetaHashes(up: Upload)
    ensures Meta(up).chunkHashes == FileHashes(up.file) && Meta(up).filename == up.base
  {
    hide FileHashes, RootHash;
  }

  lemma FailedFacts(w: World, n: nat, d: nat)
    requires WorldInv(w, n) && d < |w.downloads| && w.downloads[d].phase.FailedAt?
    ensures var down := w.downloads[d]; var meta, i := down.phase.meta, down.phase.i;
            && i <= |meta.chunkHashes| && (i == |meta.chunkHashes| ==> i == 0)
            && (i < |meta.chunkHashes| ==>
                  Missed(w, down, meta, meta.chunkHashes[i], |Targets(down.ring, meta.chunkHashes[i])|))
  {
    assert DownloadOk(w, d);
    hide WorldInv, DataPathInvariant.Answered, Missed, Targets;
  }

  lemma MissedIsLost(w: World, down: Download, meta: FileMetadata, u: nat, i: nat)
    requires u < |w.uploads| && w.uploads[u].phase.Published?
    requires w.uploads[u].phase.op < down.known && Meta(w.uploads[u]) == meta
    requires var hash := PieceHash(w.uploads[u].file, i); Missed(w, down, meta, hash, |Targets(down.ring, hash)|)
    ensures !LiveReplica(w, down.ring, u, i)
  {
    hide Sha256.Digest, MetadataOf, Targets, Piece, PieceHash;
    var hash := PieceHash(w.uploads[u].file, i);
    var targets := Targets(down.ring, hash);
    forall c: nat |
      Counts(w, down.known, meta, c) && w.storage.conns[c].hash == hash && w.storage.conns[c].node in targets
      ensures w.storage.conns[c].node !in w.storage.up
    {
      var q: nat :| q < |targets| && targets[q] == w.storage.conns[c].node;
    }
    assert forall c: nat ::
      c < |w.storage.conns| && w.storage.conns[c].owner == u && w.storage.conns[c].phase.Acked? ==>
        Counts(w, down.known, meta, c);
  }

  lemma FailedMissed(w: World, n: nat, d: nat, u: nat)
    requires WorldInv(w, n) && ServedFrom(w, d, u) && w.downloads[d].phase.FailedAt?
    ensures w.downloads[d].phase.i < PieceCount(|w.uploads[u].file|)
    ensures !LiveReplica(w, w.downloads[d].ring, u, w.downloads[d].phase.i)
  {
    hide Counts, WorldInv, Uploadable, Meta, PieceHash, FileHashes, PieceCount, Missed, LiveReplica, Targets, Sha256.Digest, Piece;
    var file, down := w.uploads[u].file, w.downloads[d];
    FailedFacts(w, n, d);
    MetaHashes(w.uploads[u]);
    EveryUploadIsUploadable(w, n, u);
    UploadableHasPieces(file, w.uploads[u].base);
    HashesOfPieces(file);
    MissedIsLost(w, down, down.phase.meta, u, down.phase.i);
  }

  lemma UploadableHasPieces(file: seq<Byte>, base: string)
    requires Uploadable(file, base)
    ensures PieceCount(|file|) > 0
  {
    EmptyFileHasNoPieces(file);
    hide PieceCount;
  }

  lemma HashesOfPieces(file: seq<Byte>)
    ensures |FileHashes(file)| == PieceCount(|file|)
    ensures forall i: nat :: i < PieceCount(|file|) ==> FileHashes(file)[i] == PieceHash(file, i)
  {
    FileHashAt(file);
    hide FileHashes, PieceCount, Sha256.Digest, Piece;
  }

  /** If a download fails at a chunk, every replica in its view that acknowledged this chunk to an
      upload the answer came from is down. */
  lemma FailureNeedsLosses(n: nat, nodes: set<string>, states: seq<World>, moves: seq<Move>, k: nat, d: nat, u: nat)
    requires WorldRun(n, nodes, states, moves) && k < |states|
    requires ServedFrom(states[k], d, u) && states[k].downloads[d].phase.FailedAt?
    ensures states[k].downloads[d].phase.i < PieceCount(|states[k].uploads[u].file|)
    ensures !LiveReplica(states[k], states[k].downloads[d].ring, u, states[k].downloads[d].phase.i)
  {
    hide *;
    EveryWorldIsSound(n, nodes, states, moves, k);
    FailedMissed(states[k], n, d, u);
  }

  // ----- Everything together -----

  lemma DoneFacts(w: World, n: nat, d: nat) returns (got: seq<seq<Byte>>)
    requires WorldInv(w, n) && d < |w.downloads| && w.downloads[d].phase.Done?
    ensures var meta := w.downloads[d].phase.meta;
            GotOk(meta, got) && |got| == |meta.chunkHashes| && w.downloads[d].phase.out == Glue(got)
  {
    assert DownloadOk(w, d);
    hide WorldInv, DataPathInvariant.Answered, GotOk, Glue;
    var meta := w.downloads[d].phase.meta;
    got :| GotOk(meta, got) && |got| == |meta.chunkHashes| && w.downloads[d].phase.out == Glue(got);
  }

  lemma ServedIsExact(w: World, n: nat, d: nat, u: nat)
    requires WorldInv(w, n) && ServedFrom(w, d, u) && w.downloads[d].phase.Done?
    ensures ExactOrCollision(w.uploads[u].file, w.downloads[d].phase.out)
  {
    hide WorldInv, Meta, GotOk, Glue, ExactOrCollision, FileHashes;
    var got := DoneFacts(w, n, d);
    MetaHashes(w.uploads[u]);
    GotIsExact(w.uploads[u].file, w.downloads[d].phase.meta, got);
  }

  /** If an upload's metadata was served, whatever other uploads share its name, and every chunk keeps a
      live replica that acknowledged it, then a download that has ended is done, and has written
      exactly the uploaded bytes, unless the run exhibits a SHA-256 collision. */
  lemma ServedUploadIsReturned(n: nat, nodes: set<string>, states: seq<World>, moves: seq<Move>, k: nat, d: nat, u: nat)
    requires WorldRun(n, nodes, states, moves) && k < |states|
    requires ServedFrom(states[k], d, u) && AllLive(states[k], d, u)
    ensures HasEnded(states[k], d) ==>
              && states[k].downloads[d].phase.Done?
              && ExactOrCollision(states[k].uploads[u].file, states[k].downloads[d].phase.out)
  {
    hide WorldRun, WorldInv, ExactOrCollision, LiveReplica, PieceCount, Meta;
    EveryWorldIsSound(n, nodes, states, moves, k);
    ServedUploadInWorld(states[k], n, d, u);
  }

  lemma ServedUploadInWorld(w: World, n: nat, d: nat, u: nat)
    requires WorldInv(w, n) && ServedFrom(w, d, u) && AllLive(w, d, u)
    ensures HasEnded(w, d) ==>
              w.downloads[d].phase.Done? && ExactOrCollision(w.uploads[u].file, w.downloads[d].phase.out)
  {
    hide WorldInv, ExactOrCollision, LiveReplica, PieceCount, Meta;
    if w.downloads[d].phase.FailedAt? {
      FailedMissed(w, n, d, u);
    } else if w.downloads[d].phase.Done? {
      ServedIsExact(w, n, d, u);
    }
  }

  /** No other upload uses this base name. */
  ghost predicate OnlyUploadOf(w: World, u: nat) {
    u < |w.uploads| && forall v: nat :: v < |w.uploads| && w.uploads[v].base == w.uploads[u].base ==> v == u
  }

  lemma OnlyUploadServes(w: World, n: nat, d: nat, u: nat)
    requires WorldInv(w, n) && OnlyUploadOf(w, u) && HasEnded(w, d) && w.downloads[d].name == w.uploads[u].base
    ensures ServedFrom(w, d, u)
  {
    var meta := w.downloads[d].phase.meta;
    AnswerIsKnown(w, n, d);
    hide WorldInv, Meta, DataPathInvariant.Answered;
    var v := AnsweredByUpload(w, n, w.downloads[d], meta);
  }

  lemma AnswerIsKnown(w: World, n: nat, d: nat)
    requires WorldInv(w, n) && HasEnded(w, d)
    ensures DataPathInvariant.Answered(w, w.downloads[d], w.downloads[d].phase.meta)
  {
    assert DownloadOk(w, d);
    hide WorldInv, DataPathInvariant.Answered, Missed, GotOk, Targets;
  }

  /** In particular, if no other upload shares the name, the upload is the one served. */
  lemma DownloadReturnsUpload(n: nat, nodes: set<string>, states: seq<World>, moves: seq<Move>, k: nat, d: nat, u: nat)
    requires WorldRun(n, nodes, states, moves) && k < |states|
    requires OnlyUploadOf(states[k], u) && AllLive(states[k], d, u)
    requires states[k].downloads[d].name == states[k].uploads[u].base
    ensures !states[k].downloads[d].phase.FailedAt?
    ensures states[k].downloads[d].phase.Done? ==>
              ExactOrCollision(states[k].uploads[u].file, states[k].downloads[d].phase.out)
  {
    hide WorldRun, WorldInv, ExactOrCollision, LiveReplica, PieceCount, Meta;
    if HasEnded(states[k], d) {
      EveryWorldIsSound(n, nodes, states, moves, k);
      OnlyUploadServes(states[k], n, d, u);
      ServedUploadInWorld(states[k], n, d, u);
    }
  }

  // ----- A download left alone finishes -----

  /** The download's next moves, k of them. */
  ghost function Fetches(w: World, d: nat, k: nat): World {
    if k == 0 then w
    else
      var before := Fetches(w, d, k - 1);
      if Possible(before, Fetch(d)) then DoFetch(before, d) else before
  }

  lemma {:induction false} FetchesShift(w: World, d: nat, k: nat)
    requires Possible(w, Fetch(d))
    ensures Fetches(w, d, k + 1) == Fetches(DoFetch(w, d), d, k)
  {
    hide DoFetch, Possible;
    if k == 0 {
      assert Fetches(w, d, 1) == DoFetch(Fetches(w, d, 0), d);
    } else {
      FetchesShift(w, d, k - 1);
    }
  }

  lemma AtMostTwoTargets(ring: Dht.Ring, hash: string)
    ensures |Targets(ring, hash)| <= 2
  {
    Dht.ReplicasDef(ring, hash, REPLICATION_FACTOR);
    hide Dht.Order, Dht.Replicas;
  }

  ghost predicate IsFetching(w: World, d: nat) {
    d < |w.downloads| && w.downloads[d].phase.Fetching?
  }

  ghost predicate HasEnded(w: World, d: nat) {
    d < |w.downloads| && (w.downloads[d].phase.Done? || w.downloads[d].phase.FailedAt?)
  }

  /** How many more moves a download needs at most: three for a chunk, and one at the end. */
  ghost function Budget(w: World, d: nat): (budget: nat)
    requires IsFetching(w, d)
    ensures budget >= 1
  {
    var Fetching(meta, i, r, _) := w.downloads[d].phase;
    var n := |meta.chunkHashes|;
    if i >= n then 1 else 3 * (n - i) + 1 - (if r < 2 then r else 2)
  }

  lemma CanFetch(w: World, d: nat)
    ensures Possible(w, Fetch(d)) <==> IsFetching(w, d)
  {
  }

  /** Every fetch uses up some of the budget, or is the last. */
  lemma FetchMoves(w: World, d: nat)
    requires Possible(w, Fetch(d))
    ensures IsFetching(w, d) && (IsFetching(DoFetch(w, d), d) || HasEnded(DoFetch(w, d), d))
    ensures IsFetching(DoFetch(w, d), d) ==> Budget(DoFetch(w, d), d) < Budget(w, d)
  {
    CanFetch(w, d);
    hide Possible, Targets, Holds;
    var down := w.downloads[d];
    var Fetching(meta, i, r, got) := down.phase;
    if i < |meta.chunkHashes| {
      AtMostTwoTargets(down.ring, meta.chunkHashes[i]);
    }
  }

  /** From any state in which a download is fetching, at most three attempts per chunk and one last
      step bring it to an end. */
  lemma {:induction false} FetchingEnds(w: World, d: nat) returns (k: nat)
    requires IsFetching(w, d)
    ensures k <= Budget(w, d) && HasEnded(Fetches(w, d, k), d)
    decreases Budget(w, d)
  {
    hide *;
    CanFetch(w, d);
    FetchMoves(w, d);
    var t := DoFetch(w, d);
    FetchesShift(w, d, 0);
    NoFetches(t, d);
    k := 1;
    if IsFetching(t, d) {
      var rest := FetchingEnds(t, d);
      FetchesShift(w, d, rest);
      k := rest + 1;
    }
  }

  lemma NoFetches(w: World, d: nat)
    ensures Fetches(w, d, 0) == w
  {
  }

  /** Fetching leaves everything alone but the position of the download. */
  lemma {:induction false} FetchesKeep(w: World, n: nat, d: nat, u: nat, k: nat)
    requires WorldInv(w, n) && ServedFrom(w, d, u) && AllLive(w, d, u)
    ensures WorldInv(Fetches(w, d, k), n) && ServedFrom(Fetches(w, d, k), d, u) && AllLive(Fetches(w, d, k), d, u)
    ensures Fetches(w, d, k).uploads == w.uploads
  {
    hide WorldInv, ServedFrom, AllLive, DoFetch, Possible;
    if k > 0 {
      FetchesKeep(w, n, d, u, k - 1);
      var before := Fetches(w, d, k - 1);
      if Possible(before, Fetch(d)) {
        FetchIsMove(before, d);
        MoveKeepsInv(before, n, Fetch(d));
        FetchKeepsServed(before, d, u);
      }
    }
  }

  lemma FetchIsMove(w: World, d: nat)
    requires Possible(w, Fetch(d))
    ensures NextWorld(w, Fetch(d)) == DoFetch(w, d)
  {
  }

  lemma FetchKeepsServed(w: World, d: nat, u: nat)
    requires Possible(w, Fetch(d)) && ServedFrom(w, d, u) && AllLive(w, d, u)
    ensures ServedFrom(DoFetch(w, d), d, u) && AllLive(DoFetch(w, d), d, u)
    ensures DoFetch(w, d).uploads == w.uploads
  {
    var t := DoFetch(w, d);
    FetchFrame(w, Fetch(d));
    FetchIsMove(w, d);
    FetchKeepsMeta(w, d);
    hide DoFetch, NextWorld, Possible, Meta, LiveReplica, PieceCount;
    forall j: nat | LiveReplica(w, w.downloads[d].ring, u, j)
      ensures LiveReplica(t, t.downloads[d].ring, u, j)
    {
      SameReplicas(w, t, w.downloads[d].ring, u, j);
    }
  }

  lemma FetchKeepsMeta(w: World, d: nat)
    requires Possible(w, Fetch(d))
    ensures d < |w.downloads| == |DoFetch(w, d).downloads| && w.downloads[d].phase.Fetching?
    ensures var phase := DoFetch(w, d).downloads[d].phase;
            (phase.Fetching? || phase.Done? || phase.FailedAt?) && phase.meta == w.downloads[d].phase.meta
  {
    CanFetch(w, d);
    hide Possible, Targets, Holds;
  }

  lemma SameReplicas(w: World, t: World, ring: Dht.Ring, u: nat, j: nat)
    requires t.storage == w.storage && t.uploads == w.uploads
    ensures LiveReplica(t, ring, u, j) <==> LiveReplica(w, ring, u, j)
  {
    hide PieceHash, Targets;
  }

  /** A download that is fetching an upload's chunks, all of which have live replicas, comes to its end
      within the budget when left alone, and writes exactly the uploaded bytes, or a collision shows. */
  lemma DownloadCompletes(w: World, n: nat, d: nat, u: nat) returns (k: nat)
    requires WorldInv(w, n) && IsFetching(w, d) && ServedFrom(w, d, u) && AllLive(w, d, u)
    ensures k <= Budget(w, d)
    ensures var t := Fetches(w, d, k);
            d < |t.downloads| && t.downloads[d].phase.Done? && ExactOrCollision(w.uploads[u].file, t.downloads[d].phase.out)
  {
    k := FetchingEnds(w, d);
    FetchesKeep(w, n, d, u, k);
    var t := Fetches(w, d, k);
    hide WorldInv, ServedFrom, AllLive, Fetches, ExactOrCollision;
    ServedUploadInWorld(t, n, d, u);
  }

  // ----- Different views of the ring -----

  /** Both replicas of a chunk have acknowledged it. */
  ghost predicate FullyReplicated(w: World, u: nat, j: nat) {
    u < |w.uploads| && forall node :: node in Targets(w.uploads[u].ring, PieceHash(w.uploads[u].file, j)) ==>
      exists c: nat :: c < |w.storage.conns| && w.storage.conns[c].owner == u && w.storage.conns[c].phase.Acked?
        && w.storage.conns[c].hash == PieceHash(w.uploads[u].file, j) && w.storage.conns[c].node == node
  }

  /** The second view has one more node, at a position of its own, and two nodes or more. */
  ghost predicate OneNodeMore(ring: Dht.Ring, more: Dht.Ring, extra: string) {
    Dht.WellPlaced(ring) && Dht.Position(extra) !in ring && |ring| >= 1 && more == Dht.Added(ring, extra)
  }

  ghost predicate OneNodeApart(a: Dht.Ring, b: Dht.Ring, extra: string) {
    OneNodeMore(a, b, extra) || OneNodeMore(b, a, extra)
  }

  /** A fully replicated chunk has a live replica in the view of a client that knows one node more
      or less, as long as its replicas are up and the larger view has two nodes. */
  lemma OtherViewFindsReplica(w: World, u: nat, j: nat, ring: Dht.Ring, extra: string)
    requires FullyReplicated(w, u, j)
    requires OneNodeApart(w.uploads[u].ring, ring, extra)
    requires forall node :: node in Targets(w.uploads[u].ring, PieceHash(w.uploads[u].file, j)) ==> node in w.storage.up
    ensures LiveReplica(w, ring, u, j)
  {
    var mine, hash := w.uploads[u].ring, PieceHash(w.uploads[u].file, j);
    var shared := SharedTarget(mine, ring, extra, hash);
    hide Sha256.Digest, Piece, Dht.Replicas, Dht.WellPlaced, Targets;
  }

  lemma SharedTarget(mine: Dht.Ring, ring: Dht.Ring, extra: string, hash: string) returns (shared: string)
    requires OneNodeApart(mine, ring, extra)
    ensures shared in Targets(mine, hash) && shared in Targets(ring, hash)
  {
    hide Dht.Replicas, Dht.WellPlaced, Dht.Added;
    if OneNodeMore(mine, ring, extra) {
      shared := Dht.ViewsShareReplica(mine, extra, hash);
    } else {
      shared := Dht.ViewsShareReplica(ring, extra, hash);
    }
  }
}
