/** What every interleaving of the data path keeps: a chunk counts as placed only when one of its
    replicas has acknowledged it, metadata is published only after all chunks are placed, and a
    download has passed over a replica only if the replica is down or never took the chunk. */
module DataPathInvariant {
  import opened Common
  import opened Words
  import opened FileUtils
  import opened HashUtils
  import opened MapObject
  import opened StorageSystem
  import opened DataPath
  import Dht = ConsistentHashing
  import Chain = ChainSystem
  import ChainContainment
  import ChainAnswers
  import Sha256

  // ----- The invariant -----

  /** A replica of chunk j has acknowledged it to upload u, through connection c. */
  ghost predicate AcceptedBy(w: World, u: nat, j: nat, c: nat) {
    && u < |w.uploads| && c < |w.storage.conns|
    && w.storage.conns[c].owner == u && w.storage.conns[c].phase.Acked?
    && w.storage.conns[c].data == Piece(w.uploads[u].file, j)
    && w.storage.conns[c].hash == PieceHash(w.uploads[u].file, j)
    && w.storage.conns[c].node in Targets(w.uploads[u].ring, PieceHash(w.uploads[u].file, j))
  }

  ghost predicate Accepted(w: World, u: nat, j: nat) {
    exists c: nat :: AcceptedBy(w, u, j, c)
  }

  ghost predicate AcceptedUpTo(w: World, u: nat, n: nat) {
    forall j: nat :: j < n ==> Accepted(w, u, j)
  }

  ghost predicate UploadOk(w: World, u: nat)
    requires u < |w.uploads|
  {
    var up := w.uploads[u];
    && Uploadable(up.file, up.base)
    && match up.phase
       case Placing(i, r, acks) =>
         i < PieceCount(|up.file|) && AcceptedUpTo(w, u, i) && (acks > 0 ==> Accepted(w, u, i))
       case Sending(i, r, acks, conn) =>
         && i < PieceCount(|up.file|) && AcceptedUpTo(w, u, i) && (acks > 0 ==> Accepted(w, u, i))
         && conn < |w.storage.conns|
         && w.storage.conns[conn].owner == u && w.storage.conns[conn].data == Piece(up.file, i)
         && w.storage.conns[conn].hash == PieceHash(up.file, i)
         && w.storage.conns[conn].node in Targets(up.ring, PieceHash(up.file, i))
       case Publishing => AcceptedUpTo(w, u, PieceCount(|up.file|))
       case Published(op) =>
         && AcceptedUpTo(w, u, PieceCount(|up.file|))
         && op < |w.chain.ops| && w.chain.ops[op].call == PutCall(Meta(up))
       case Aborted => true
  }

  /** Connections are settled, but for those that an upload still waits for. */
  ghost predicate ConnSettled(w: World, c: nat)
    requires c < |w.storage.conns|
  {
    var conn := w.storage.conns[c];
    && conn.owner < |w.uploads|
    && (conn.phase.Acked? || conn.phase.Refused? ||
        (w.uploads[conn.owner].phase.Sending? && w.uploads[conn.owner].phase.conn == c))
  }

  /** Every PUT in the chain was published by an upload. */
  ghost predicate PutPublished(w: World, o: nat)
    requires o < |w.chain.ops|
  {
    w.chain.ops[o].call.PutCall? ==>
      exists u: nat :: u < |w.uploads| && w.uploads[u].phase == Published(o) && Meta(w.uploads[u]) == w.chain.ops[o].call.meta
  }

  /** Upload u published this metadata before the download got its answer, and the connection has
      acknowledged a chunk to it. */
  ghost predicate Counts(w: World, known: nat, meta: FileMetadata, c: nat) {
    && c < |w.storage.conns| && w.storage.conns[c].phase.Acked? && w.storage.conns[c].owner < |w.uploads|
    && var up := w.uploads[w.storage.conns[c].owner];
       up.phase.Published? && up.phase.op < known && Meta(up) == meta
  }

  /** The first r replicas of the hash are down, or have not acknowledged it to a publisher of
      this metadata. */
  ghost predicate Missed(w: World, down: Download, meta: FileMetadata, hash: string, r: nat) {
    forall q: nat, c: nat ::
      (q < r && q < |Targets(down.ring, hash)| && Counts(w, down.known, meta, c) &&
       w.storage.conns[c].node == Targets(down.ring, hash)[q] && w.storage.conns[c].hash == hash) ==>
      w.storage.conns[c].node !in w.storage.up
  }

  /** What has been got has the digests that the metadata lists. */
  ghost predicate GotOk(meta: FileMetadata, got: seq<seq<Byte>>) {
    |got| <= |meta.chunkHashes| &&
    forall j: nat :: j < |got| ==> got[j] != [] && Sha256.Digest(got[j]) == meta.chunkHashes[j]
  }

  /** The chain has answered with this metadata, which had been put under this name. */
  ghost predicate Answered(w: World, down: Download, meta: FileMetadata) {
    && down.known <= |w.chain.ops| && down.op < |w.chain.ops|
    && w.chain.ops[down.op].result == Some(GetFound(meta)) && meta.filename == down.name
    && exists p: nat :: p < down.known && w.chain.ops[p].call == PutCall(meta)
  }

  ghost predicate DownloadOk(w: World, d: nat)
    requires d < |w.downloads|
  {
    var down := w.downloads[d];
    && down.op < |w.chain.ops| && w.chain.ops[down.op].call == GetCall(down.name)
    && match down.phase
       case Asking => true
       case NotFound => true
       case Fetching(meta, i, r, got) =>
         && Answered(w, down, meta) && GotOk(meta, got) && |got| == i
         && (i < |meta.chunkHashes| ==> Missed(w, down, meta, meta.chunkHashes[i], r))
       case Done(meta, out) =>
         Answered(w, down, meta) && exists got :: GotOk(meta, got) && |got| == |meta.chunkHashes| && out == Glue(got)
       case FailedAt(meta, i) =>
         && Answered(w, down, meta) && i <= |meta.chunkHashes|
         && (i < |meta.chunkHashes| ==>
               Missed(w, down, meta, meta.chunkHashes[i], |Targets(down.ring, meta.chunkHashes[i])|))
         && (i == |meta.chunkHashes| ==> i == 0)
  }

  ghost predicate Uploads(w: World) {
    forall u: nat :: u < |w.uploads| ==> UploadOk(w, u)
  }

  ghost predicate Conns(w: World) {
    forall c: nat :: c < |w.storage.conns| ==> ConnSettled(w, c)
  }

  ghost predicate Puts(w: World) {
    forall o: nat :: o < |w.chain.ops| ==> PutPublished(w, o)
  }

  ghost predicate Downloads(w: World) {
    forall d: nat :: d < |w.downloads| ==> DownloadOk(w, d)
  }

  ghost predicate ChainSound(w: World, n: nat) {
    ChainContainment.ChainInv(w.chain, n) && ChainAnswers.Sourced(w.chain)
  }

  ghost predicate WorldInv(w: World, n: nat) {
    StorageInv(w.storage) && ChainSound(w, n) && Uploads(w) && Conns(w) && Puts(w) && Downloads(w)
  }

  // ----- What no move takes back -----

  ghost predicate ChainLater(s: Chain.Sys, t: Chain.Sys) {
    && |s.ops| <= |t.ops|
    && forall o: nat :: o < |s.ops| ==>
         t.ops[o].call == s.ops[o].call && (s.ops[o].result.Some? ==> t.ops[o].result == s.ops[o].result)
  }

  ghost predicate UploadsLater(w: World, t: World) {
    && |w.uploads| <= |t.uploads|
    && (forall u: nat :: u < |w.uploads| ==>
          t.uploads[u].(phase := w.uploads[u].phase) == w.uploads[u] &&
          (w.uploads[u].phase.Published? ==> t.uploads[u].phase == w.uploads[u].phase))
    && (forall u: nat :: u < |t.uploads| && t.uploads[u].phase.Published? && t.uploads[u].phase.op < |w.chain.ops| ==>
          u < |w.uploads| && w.uploads[u].phase == t.uploads[u].phase)
  }

  /** Once an upload is published, no connection acknowledges anything to it any more. */
  ghost predicate AcksLater(w: World, t: World) {
    forall c: nat ::
      (c < |t.storage.conns| && t.storage.conns[c].phase.Acked? &&
       t.storage.conns[c].owner < |w.uploads| && w.uploads[t.storage.conns[c].owner].phase.Published?) ==>
      c < |w.storage.conns| && w.storage.conns[c].phase.Acked?
  }

  ghost predicate Later(w: World, t: World) {
    Persists(w.storage, t.storage) && ChainLater(w.chain, t.chain) && UploadsLater(w, t) && AcksLater(w, t)
  }

  // ----- Each part stays sound under anything later -----

  lemma AcceptedLater(w: World, t: World, u: nat, j: nat)
    requires Later(w, t) && Accepted(w, u, j)
    ensures Accepted(t, u, j)
  {
    hide AcceptedBy, Later;
    var c: nat :| AcceptedBy(w, u, j, c);
    AcceptedByLater(w, t, u, j, c);
  }

  lemma AcceptedByLater(w: World, t: World, u: nat, j: nat, c: nat)
    requires Later(w, t) && AcceptedBy(w, u, j, c)
    ensures AcceptedBy(t, u, j, c)
  {
    hide Targets, PieceHash, Piece, ChainLater, AcksLater;
    assert t.uploads[u].(phase := w.uploads[u].phase) == w.uploads[u];
    assert t.storage.conns[c].(phase := w.storage.conns[c].phase) == w.storage.conns[c];
  }

  lemma AcceptedUpToLater(w: World, t: World, u: nat, n: nat)
    requires Later(w, t) && AcceptedUpTo(w, u, n)
    ensures AcceptedUpTo(t, u, n)
  {
    hide Later, Accepted;
    forall j: nat | j < n
      ensures Accepted(t, u, j)
    {
      AcceptedLater(w, t, u, j);
    }
  }

  lemma UploadOkLater(w: World, t: World, u: nat)
    requires Later(w, t) && u < |w.uploads| && UploadOk(w, u) && u < |t.uploads| && t.uploads[u] == w.uploads[u]
    ensures UploadOk(t, u)
  {
    hide Targets, PieceHash, Piece, AcksLater, UploadsLater, Accepted, AcceptedUpTo, Uploadable, Meta;
    var up := w.uploads[u];
    match up.phase
    case Placing(i, r, acks) =>
      AcceptedUpToLater(w, t, u, i);
      if acks > 0 {
        AcceptedLater(w, t, u, i);
      }
    case Sending(i, r, acks, conn) =>
      AcceptedUpToLater(w, t, u, i);
      if acks > 0 {
        AcceptedLater(w, t, u, i);
      }
      assert t.storage.conns[conn].(phase := w.storage.conns[conn].phase) == w.storage.conns[conn];
    case Publishing =>
      AcceptedUpToLater(w, t, u, PieceCount(|up.file|));
    case Published(op) =>
      AcceptedUpToLater(w, t, u, PieceCount(|up.file|));
    case Aborted =>
  }

  lemma PutPublishedLater(w: World, t: World, o: nat)
    requires Later(w, t) && o < |w.chain.ops| && PutPublished(w, o)
    ensures o < |t.chain.ops| && PutPublished(t, o)
  {
    hide Persists, AcksLater, FileHashes, RootHash;
    if t.chain.ops[o].call.PutCall? {
      var u: nat :| u < |w.uploads| && w.uploads[u].phase == Published(o) && Meta(w.uploads[u]) == w.chain.ops[o].call.meta;
      assert t.uploads[u].(phase := w.uploads[u].phase) == w.uploads[u];
    }
  }

  lemma CountsLater(w: World, t: World, known: nat, meta: FileMetadata, c: nat)
    requires Later(w, t) && known <= |w.chain.ops| && Counts(t, known, meta, c)
    ensures Counts(w, known, meta, c)
    ensures t.storage.conns[c].node == w.storage.conns[c].node && t.storage.conns[c].hash == w.storage.conns[c].hash
  {
    hide FileHashes, RootHash, ChainLater;
    var u := t.storage.conns[c].owner;
    assert t.uploads[u].phase.Published? && t.uploads[u].phase.op < |w.chain.ops|;
    assert t.uploads[u].(phase := w.uploads[u].phase) == w.uploads[u];
    assert t.storage.conns[c].(phase := w.storage.conns[c].phase) == w.storage.conns[c];
  }

  lemma MissedLater(w: World, t: World, down: Download, meta: FileMetadata, hash: string, r: nat)
    requires Later(w, t) && down.known <= |w.chain.ops| && Missed(w, down, meta, hash, r)
    ensures Missed(t, down, meta, hash, r)
  {
    assert t.storage.up <= w.storage.up;
    hide Later, Counts, Targets;
    forall q: nat, c: nat |
      q < r && q < |Targets(down.ring, hash)| && Counts(t, down.known, meta, c) &&
      t.storage.conns[c].node == Targets(down.ring, hash)[q] && t.storage.conns[c].hash == hash
      ensures t.storage.conns[c].node !in t.storage.up
    {
      CountsLater(w, t, down.known, meta, c);
    }
  }

  lemma AnsweredLater(w: World, t: World, down: Download, meta: FileMetadata)
    requires Later(w, t) && Answered(w, down, meta)
    ensures Answered(t, down, meta)
  {
    hide Persists, UploadsLater, AcksLater;
    var p: nat :| p < down.known && w.chain.ops[p].call == PutCall(meta);
    assert t.chain.ops[p].call == PutCall(meta);
  }

  lemma DownloadOkLater(w: World, t: World, d: nat)
    requires Later(w, t) && d < |w.downloads| && DownloadOk(w, d) && d < |t.downloads| && t.downloads[d] == w.downloads[d]
    ensures DownloadOk(t, d)
  {
    assert |w.chain.ops| <= |t.chain.ops| && forall o: nat :: o < |w.chain.ops| ==> t.chain.ops[o].call == w.chain.ops[o].call;
    hide Later, Missed, Answered, GotOk, Targets;
    var down := w.downloads[d];
    match down.phase
    case Asking =>
    case NotFound =>
    case Fetching(meta, i, r, got) =>
      AnsweredLater(w, t, down, meta);
      KnownBound(w, down, meta);
      if i < |meta.chunkHashes| {
        MissedLater(w, t, down, meta, meta.chunkHashes[i], r);
      }
    case Done(meta, out) =>
      AnsweredLater(w, t, down, meta);
    case FailedAt(meta, i) =>
      AnsweredLater(w, t, down, meta);
      KnownBound(w, down, meta);
      if i < |meta.chunkHashes| {
        MissedLater(w, t, down, meta, meta.chunkHashes[i], |Targets(down.ring, meta.chunkHashes[i])|);
      }
  }

  lemma KnownBound(w: World, down: Download, meta: FileMetadata)
    requires Answered(w, down, meta)
    ensures down.known <= |w.chain.ops|
  {
  }

  // ----- Every move leads to something later -----

  lemma ChainStepLater(s: Chain.Sys, n: nat, st: Chain.Step)
    requires ChainContainment.ChainInv(s, n) && Chain.Enabled(s, st)
    ensures ChainLater(s, Chain.Next(s, st))
    ensures !st.InvokePut? && !st.InvokeGet? ==> |Chain.Next(s, st).ops| == |s.ops|
  {
    ChainContainment.StepGrows(s, n, st);
    hide ChainContainment.ChainInv;
  }

  lemma SameStorage(w: World, t: World)
    requires t.storage == w.storage
    ensures Persists(w.storage, t.storage) && AcksLater(w, t)
  {
  }

  lemma SameChain(w: World, t: World)
    requires t.chain == w.chain
    ensures ChainLater(w.chain, t.chain)
  {
  }

  /** Only upload u has moved, and it was not published and is not now under an old number. */
  lemma OneUploadLater(w: World, t: World, u: nat)
    requires u < |w.uploads| == |t.uploads| && !w.uploads[u].phase.Published?
    requires t.uploads == w.uploads[u := w.uploads[u].(phase := t.uploads[u].phase)]
    requires t.uploads[u].phase.Published? ==> t.uploads[u].phase.op >= |w.chain.ops|
    ensures UploadsLater(w, t)
  {
  }

  lemma SameUploads(w: World, t: World)
    requires t.uploads == w.uploads
    ensures UploadsLater(w, t)
  {
  }

  lemma StorageMoveAcks(w: World, t: World, st: StorageStep)
    requires Conns(w) && StepEnabled(w.storage, st)
    requires t.storage == NextStorage(w.storage, st)
    ensures AcksLater(w, t)
  {
    hide Sha256.Digest;
    forall c: nat |
      c < |t.storage.conns| && t.storage.conns[c].phase.Acked? &&
      t.storage.conns[c].owner < |w.uploads| && w.uploads[t.storage.conns[c].owner].phase.Published?
      ensures c < |w.storage.conns| && w.storage.conns[c].phase.Acked?
    {
      assert c < |w.storage.conns| ==> ConnSettled(w, c);
    }
  }

  lemma PlaceLater(w: World, u: nat)
    requires StorageInv(w.storage) && Conns(w) && Possible(w, Place(u))
    ensures Later(w, DoPlace(w, u))
  {
    hide Sha256.Digest, Targets, PieceHash, Piece;
    var t := DoPlace(w, u);
    var up := w.uploads[u];
    var targets := Targets(up.ring, PieceHash(up.file, up.phase.i));
    OneUploadLater(w, t, u);
    SameChain(w, t);
    if up.phase.r < |targets| && StepEnabled(w.storage, OpenStore(u, targets[up.phase.r], Piece(up.file, up.phase.i))) {
      var st := OpenStore(u, targets[up.phase.r], Piece(up.file, up.phase.i));
      StepKeepsStorage(w.storage, st);
      StorageMoveAcks(w, t, st);
    } else {
      SameStorage(w, t);
    }
  }

  lemma MoveIsLater(w: World, n: nat, m: Move)
    requires WorldInv(w, n) && Possible(w, m)
    ensures Later(w, NextWorld(w, m))
  {
    var t := NextWorld(w, m);
    if m.Place? {
      PlaceLater(w, m.u);
      return;
    }
    hide Sha256.Digest, DoFetch, DoPlace, Uploads, Puts, Downloads, ChainContainment.ChainInv, Meta;
    if m.StorageMove? {
      StepKeepsStorage(w.storage, m.act);
      StorageMoveAcks(w, t, m.act);
    } else {
      FetchFrame(w, m);
      SameStorage(w, t);
    }
    if m.ChainMove? {
      ChainStepLater(w.chain, n, m.st);
    } else if m.Publish? {
      ChainStepLater(w.chain, n, Chain.InvokePut(Meta(w.uploads[m.u])));
    } else if m.Ask? {
      ChainStepLater(w.chain, n, Chain.InvokeGet(m.name));
    } else {
      FetchFrame(w, m);
      SameChain(w, t);
    }
    if m.Hear? || m.Publish? {
      OneUploadLater(w, t, m.u);
    } else if !m.Begin? {
      FetchFrame(w, m);
      SameUploads(w, t);
    }
  }

  /** A fetch only changes its own download. */
  lemma FetchFrame(w: World, m: Move)
    requires Possible(w, m)
    ensures m.Fetch? ==> var t := NextWorld(w, m);
              && t.storage == w.storage && t.chain == w.chain && t.uploads == w.uploads
              && m.d < |w.downloads| == |t.downloads| && t.downloads == w.downloads[m.d := t.downloads[m.d]]
              && t.downloads[m.d].(phase := w.downloads[m.d].phase) == w.downloads[m.d]
  {
    hide Targets;
  }

  // ----- Uploads -----

  lemma NothingAccepted(w: World, u: nat)
    ensures AcceptedUpTo(w, u, 0)
  {
  }

  lemma OneMoreAccepted(w: World, u: nat, i: nat)
    requires AcceptedUpTo(w, u, i) && Accepted(w, u, i)
    ensures AcceptedUpTo(w, u, i + 1)
  {
    hide Accepted;
  }

  lemma PlacedUpload(w: World, u: nat)
    requires Possible(w, Place(u)) && Later(w, DoPlace(w, u)) && UploadOk(w, u)
    ensures u < |DoPlace(w, u).uploads| && UploadOk(DoPlace(w, u), u)
  {
    hide Sha256.Digest, Targets, Piece, Later, Accepted, AcceptedUpTo, Uploadable, Meta;
    var t := DoPlace(w, u);
    var up := w.uploads[u];
    var Placing(i, r, acks) := up.phase;
    AcceptedUpToLater(w, t, u, i);
    NothingAccepted(t, u);
    if acks > 0 {
      AcceptedLater(w, t, u, i);
      OneMoreAccepted(t, u, i);
    }
    EmptyFileHasNoPieces(up.file);
  }

  lemma EmptyFileHasNoPieces(file: seq<Byte>)
    ensures file != [] ==> PieceCount(|file|) > 0
  {
  }

  lemma HeardUpload(w: World, u: nat)
    requires Possible(w, Hear(u)) && Later(w, DoHear(w, u)) && UploadOk(w, u)
    ensures u < |DoHear(w, u).uploads| && UploadOk(DoHear(w, u), u)
  {
    var t := DoHear(w, u);
    var Sending(i, r, acks, conn) := w.uploads[u].phase;
    hide Sha256.Digest, Targets, Piece, PieceHash, Later, AcceptedUpTo, Uploadable, Meta;
    if w.storage.conns[conn].phase.Acked? {
      assert AcceptedBy(t, u, i, conn);
    }
    hide Accepted;
    AcceptedUpToLater(w, t, u, i);
    if acks > 0 {
      AcceptedLater(w, t, u, i);
    }
  }

  lemma PublishedUpload(w: World, u: nat)
    requires Possible(w, Publish(u)) && Later(w, DoPublish(w, u)) && UploadOk(w, u)
    ensures u < |DoPublish(w, u).uploads| && UploadOk(DoPublish(w, u), u)
  {
    hide Sha256.Digest, Later, AcceptedUpTo, Uploadable, FileHashes, RootHash;
    AcceptedUpToLater(w, DoPublish(w, u), u, PieceCount(|w.uploads[u].file|));
  }

  lemma BegunUpload(w: World, file: seq<Byte>, base: string, ring: Dht.Ring)
    requires Possible(w, Begin(file, base, ring))
    ensures UploadOk(NextWorld(w, Begin(file, base, ring)), |w.uploads|)
  {
    NothingAccepted(NextWorld(w, Begin(file, base, ring)), |w.uploads|);
    EmptyFileHasNoPieces(file);
    hide Accepted, AcceptedUpTo, Uploadable;
  }

  lemma MoveKeepsUpload(w: World, n: nat, m: Move, u: nat)
    requires WorldInv(w, n) && Possible(w, m) && Later(w, NextWorld(w, m)) && u < |NextWorld(w, m).uploads|
    ensures UploadOk(NextWorld(w, m), u)
  {
    if u < |w.uploads| {
      assert UploadOk(w, u);
    }
    OtherUpload(w, m, u);
    hide Sha256.Digest, Later, UploadOk, DoFetch, DoPlace, WorldInv, Meta, Targets;
    if m.Begin? && u == |w.uploads| {
      BegunUpload(w, m.file, m.base, m.ring);
    } else if m.Place? && u == m.u {
      PlacedUpload(w, u);
    } else if m.Hear? && u == m.u {
      HeardUpload(w, u);
    } else if m.Publish? && u == m.u {
      PublishedUpload(w, u);
    } else {
      UploadOkLater(w, NextWorld(w, m), u);
    }
  }

  lemma OtherUpload(w: World, m: Move, u: nat)
    requires Possible(w, m) && u < |NextWorld(w, m).uploads|
    ensures (m.Begin? && u == |w.uploads|) || ((m.Place? || m.Hear? || m.Publish?) && u == m.u) ||
            (u < |w.uploads| && NextWorld(w, m).uploads[u] == w.uploads[u])
  {
    hide Sha256.Digest, DoFetch, Targets, PieceHash, Piece, Meta;
    FetchFrame(w, m);
  }

  // ----- Connections and published PUTs -----

  lemma MoveKeepsConn(w: World, n: nat, m: Move, c: nat)
    requires WorldInv(w, n) && Possible(w, m) && c < |NextWorld(w, m).storage.conns|
    ensures ConnSettled(NextWorld(w, m), c)
  {
    hide Sha256.Digest, DoFetch, Targets, Piece, PieceHash, ChainSound, StorageInv, Uploads, Puts, Downloads, Meta;
    FetchFrame(w, m);
    if c < |w.storage.conns| {
      assert ConnSettled(w, c);
    }
  }

  lemma MoveKeepsPut(w: World, n: nat, m: Move, o: nat)
    requires WorldInv(w, n) && Possible(w, m) && Later(w, NextWorld(w, m)) && o < |NextWorld(w, m).chain.ops|
    ensures PutPublished(NextWorld(w, m), o)
  {
    hide *;
    NewOps(w, n, m);
    if o < |w.chain.ops| {
      OldPut(w, n, o);
      PutPublishedLater(w, NextWorld(w, m), o);
    } else if m.Publish? {
      NewPut(w, m.u);
      PublishIsNext(w, m.u);
    } else {
      GetIsPublished(NextWorld(w, m), o);
    }
  }

  lemma OldPut(w: World, n: nat, o: nat)
    requires WorldInv(w, n) && o < |w.chain.ops|
    ensures PutPublished(w, o)
  {
    hide StorageInv, ChainSound, Uploads, Conns, Downloads;
  }

  lemma PublishIsNext(w: World, u: nat)
    requires Possible(w, Publish(u))
    ensures NextWorld(w, Publish(u)) == DoPublish(w, u)
  {
  }

  lemma GetIsPublished(w: World, o: nat)
    requires o < |w.chain.ops| && w.chain.ops[o].call.GetCall?
    ensures PutPublished(w, o)
  {
  }

  /** Only publishing and asking create operations in the chain. */
  lemma NewOps(w: World, n: nat, m: Move)
    requires WorldInv(w, n) && Possible(w, m)
    ensures !m.Publish? && !m.Ask? ==> |NextWorld(w, m).chain.ops| == |w.chain.ops|
    ensures m.Ask? ==> |NextWorld(w, m).chain.ops| == |w.chain.ops| + 1 && NextWorld(w, m).chain.ops[|w.chain.ops|].call.GetCall?
  {
    hide Sha256.Digest, DoFetch, DoPlace, StorageInv, Uploads, Conns, Puts, Downloads, Meta,
      ChainContainment.ChainInv, ChainAnswers.Sourced;
    FetchFrame(w, m);
    PlaceFrame(w, m);
    if m.ChainMove? {
      ChainStepLater(w.chain, n, m.st);
    }
  }

  lemma PlaceFrame(w: World, m: Move)
    requires Possible(w, m)
    ensures m.Place? ==> NextWorld(w, m).chain == w.chain && NextWorld(w, m).downloads == w.downloads
  {
    hide Sha256.Digest, Targets, Piece, PieceHash;
  }

  lemma NewPut(w: World, u: nat)
    requires Possible(w, Publish(u))
    ensures |DoPublish(w, u).chain.ops| == |w.chain.ops| + 1 && PutPublished(DoPublish(w, u), |w.chain.ops|)
  {
    hide FileHashes, RootHash;
    var t := DoPublish(w, u);
    assert t.uploads[u].phase == Published(|w.chain.ops|) && Meta(t.uploads[u]) == Meta(w.uploads[u]);
  }

  // ----- Downloads -----

  lemma AskedDownload(w: World, name: string, ring: Dht.Ring)
    requires Possible(w, Ask(name, ring))
    ensures var t := NextWorld(w, Ask(name, ring));
            |t.downloads| == |w.downloads| + 1 && DownloadOk(t, |w.downloads|)
  {
  }

  lemma AnsweredDownload(w: World, n: nat, d: nat)
    requires Possible(w, Answer(d)) && DownloadOk(w, d) && ChainAnswers.Sourced(w.chain)
    ensures d < |DoAnswer(w, d).downloads| && DownloadOk(DoAnswer(w, d), d)
  {
    hide Targets, Sha256.Digest;
    var t := DoAnswer(w, d);
    var o := w.downloads[d].op;
    assert ChainAnswers.OpSourced(w.chain, o);
    var outcome := w.chain.ops[o].result.value;
    if outcome.GetFound? {
      var p: nat :| p < |w.chain.ops| && w.chain.ops[p].call == PutCall(outcome.meta);
      assert t.chain.ops[p].call == PutCall(outcome.meta);
      assert Answered(t, t.downloads[d], outcome.meta);
    }
  }

  /** A replica that is up and lacks the chunk has not acknowledged it. */
  lemma MissedOneMore(w: World, down: Download, meta: FileMetadata, hash: string, r: nat)
    requires StorageInv(w.storage) && Missed(w, down, meta, hash, r) && r < |Targets(down.ring, hash)|
    requires var node := Targets(down.ring, hash)[r]; !(node in w.storage.up && Holds(w.storage, node, hash))
    ensures Missed(w, down, meta, hash, r + 1)
  {
    hide Sha256.Digest, Targets;
    forall q: nat, c: nat |
      q < r + 1 && q < |Targets(down.ring, hash)| && Counts(w, down.known, meta, c) &&
      w.storage.conns[c].node == Targets(down.ring, hash)[q] && w.storage.conns[c].hash == hash
      ensures w.storage.conns[c].node !in w.storage.up
    {
      assert ConnOk(w.storage, c);
    }
  }

  lemma NothingMissed(w: World, down: Download, meta: FileMetadata, hash: string)
    ensures Missed(w, down, meta, hash, 0)
  {
  }

  lemma GotOneMore(meta: FileMetadata, got: seq<seq<Byte>>, data: seq<Byte>)
    requires GotOk(meta, got) && |got| < |meta.chunkHashes| && data != []
    requires Sha256.Digest(data) == meta.chunkHashes[|got|]
    ensures GotOk(meta, got + [data])
  {
    hide Sha256.Digest;
  }

  lemma HeldData(s: Storage, node: string, hash: string)
    requires StorageInv(s) && Holds(s, node, hash)
    ensures s.blobs[node][hash] != [] && Sha256.Digest(s.blobs[node][hash]) == hash
  {
    hide Sha256.Digest;
    assert ContentAddressed(s.blobs[node]);
  }

  /** What a fetch does, by cases. */
  lemma FetchedDownload(w: World, d: nat)
    requires Possible(w, Fetch(d)) && DownloadOk(w, d) && StorageInv(w.storage)
    ensures d < |DoFetch(w, d).downloads| && DownloadOk(DoFetch(w, d), d)
  {
    hide Sha256.Digest, Targets, GotOk, Missed, StorageInv;
    var t := DoFetch(w, d);
    var down := w.downloads[d];
    var Fetching(meta, i, r, got) := down.phase;
    SameAnswered(w, t, down, t.downloads[d], meta);
    hide Answered;
    GotBound(meta, got);
    if i < |meta.chunkHashes| {
      var hash := meta.chunkHashes[i];
      var targets := Targets(down.ring, hash);
      SameMissed(w, t, down, t.downloads[d], meta, hash, |targets|);
      SameMissed(w, t, down, t.downloads[d], meta, hash, r + 1);
      if r >= |targets| {
        MissedAll(w, down, meta, hash, r);
      } else {
        if Holds(w.storage, targets[r], hash) {
          HeldData(w.storage, targets[r], hash);
        }
        if targets[r] in w.storage.up && Holds(w.storage, targets[r], hash) {
          GotOneMore(meta, got, w.storage.blobs[targets[r]][hash]);
          if i + 1 < |meta.chunkHashes| {
            NothingMissed(t, t.downloads[d], meta, meta.chunkHashes[i + 1]);
          }
        } else {
          MissedOneMore(w, down, meta, hash, r);
        }
      }
    }
  }

  lemma GotBound(meta: FileMetadata, got: seq<seq<Byte>>)
    requires GotOk(meta, got)
    ensures |got| <= |meta.chunkHashes|
  {
  }

  lemma SameAnswered(w: World, t: World, down: Download, now: Download, meta: FileMetadata)
    requires Answered(w, down, meta) && t.chain == w.chain && now.(phase := down.phase) == down
    ensures Answered(t, now, meta)
  {
  }

  lemma SameMissed(w: World, t: World, down: Download, now: Download, meta: FileMetadata, hash: string, r: nat)
    requires t.storage == w.storage && t.uploads == w.uploads && now.(phase := down.phase) == down
    ensures Missed(w, down, meta, hash, r) ==> Missed(t, now, meta, hash, r)
  {
    hide Targets;
    if Missed(w, down, meta, hash, r) {
      forall q: nat, c: nat |
        q < r && q < |Targets(now.ring, hash)| && Counts(t, now.known, meta, c) &&
        t.storage.conns[c].node == Targets(now.ring, hash)[q] && t.storage.conns[c].hash == hash
        ensures t.storage.conns[c].node !in t.storage.up
      {
        assert Counts(w, down.known, meta, c);
      }
    }
  }

  lemma MissedAll(w: World, down: Download, meta: FileMetadata, hash: string, r: nat)
    requires Missed(w, down, meta, hash, r) && r >= |Targets(down.ring, hash)|
    ensures Missed(w, down, meta, hash, |Targets(down.ring, hash)|)
  {
    hide Targets, Counts;
  }

  lemma MoveKeepsDownload(w: World, n: nat, m: Move, d: nat)
    requires WorldInv(w, n) && Possible(w, m) && Later(w, NextWorld(w, m)) && d < |NextWorld(w, m).downloads|
    ensures DownloadOk(NextWorld(w, m), d)
  {
    hide Sha256.Digest, Later, DownloadOk, DoFetch, DoPlace, Targets, StorageInv, Conns, Puts, Uploads, Meta,
      ChainContainment.ChainInv, ChainAnswers.Sourced;
    if d < |w.downloads| {
      assert DownloadOk(w, d);
    }
    FetchFrame(w, m);
    PlaceFrame(w, m);
    if m.Ask? && d == |w.downloads| {
      AskedDownload(w, m.name, m.ring);
    } else if m.Answer? && d == m.d {
      AnsweredDownload(w, n, d);
    } else if m.Fetch? && d == m.d {
      FetchedDownload(w, d);
    } else {
      DownloadOkLater(w, NextWorld(w, m), d);
    }
  }

  // ----- Together -----

  lemma MoveKeepsChain(w: World, n: nat, m: Move)
    requires WorldInv(w, n) && Possible(w, m)
    ensures ChainSound(NextWorld(w, m), n)
  {
    hide Sha256.Digest, DoFetch, DoPlace, StorageInv, Uploads, Conns, Puts, Downloads, Meta,
      ChainContainment.ChainInv, ChainAnswers.Sourced;
    FetchFrame(w, m);
    PlaceFrame(w, m);
    if m.ChainMove? {
      ChainAnswers.StepKeepsSourced(w.chain, n, m.st);
    } else if m.Publish? {
      ChainAnswers.StepKeepsSourced(w.chain, n, Chain.InvokePut(Meta(w.uploads[m.u])));
    } else if m.Ask? {
      ChainAnswers.StepKeepsSourced(w.chain, n, Chain.InvokeGet(m.name));
    }
  }

  lemma MoveKeepsStorage(w: World, n: nat, m: Move)
    requires WorldInv(w, n) && Possible(w, m)
    ensures StorageInv(NextWorld(w, m).storage)
  {
    hide Sha256.Digest, DoFetch, Targets, Piece, PieceHash, StorageInv, Uploads, Conns, Puts, Downloads, ChainSound;
    FetchFrame(w, m);
    if m.StorageMove? {
      StepKeepsStorage(w.storage, m.act);
    } else if m.Place? {
      var up := w.uploads[m.u];
      var targets := Targets(up.ring, PieceHash(up.file, up.phase.i));
      if up.phase.r < |targets| && StepEnabled(w.storage, OpenStore(m.u, targets[up.phase.r], Piece(up.file, up.phase.i))) {
        StepKeepsStorage(w.storage, OpenStore(m.u, targets[up.phase.r], Piece(up.file, up.phase.i)));
      }
    }
  }

  lemma MoveKeepsUploads(w: World, n: nat, m: Move)
    requires WorldInv(w, n) && Possible(w, m) && Later(w, NextWorld(w, m))
    ensures Uploads(NextWorld(w, m)) && Conns(NextWorld(w, m))
  {
    hide NextWorld, Possible, Later, UploadOk, ConnSettled, WorldInv;
    var t := NextWorld(w, m);
    forall u: nat | u < |t.uploads|
      ensures UploadOk(t, u)
    {
      MoveKeepsUpload(w, n, m, u);
    }
    forall c: nat | c < |t.storage.conns|
      ensures ConnSettled(t, c)
    {
      MoveKeepsConn(w, n, m, c);
    }
  }

  lemma MoveKeepsDownloads(w: World, n: nat, m: Move)
    requires WorldInv(w, n) && Possible(w, m) && Later(w, NextWorld(w, m))
    ensures Puts(NextWorld(w, m)) && Downloads(NextWorld(w, m))
  {
    hide NextWorld, Possible, Later, PutPublished, DownloadOk, WorldInv;
    var t := NextWorld(w, m);
    forall o: nat | o < |t.chain.ops|
      ensures PutPublished(t, o)
    {
      MoveKeepsPut(w, n, m, o);
    }
    forall d: nat | d < |t.downloads|
      ensures DownloadOk(t, d)
    {
      MoveKeepsDownload(w, n, m, d);
    }
  }

  lemma AllParts(w: World, n: nat)
    ensures WorldInv(w, n) <==> StorageInv(w.storage) && ChainSound(w, n) && Uploads(w) && Conns(w) && Puts(w) && Downloads(w)
  {
    hide StorageInv, ChainSound, Uploads, Conns, Puts, Downloads;
  }

  lemma MoveKeepsInv(w: World, n: nat, m: Move)
    requires WorldInv(w, n) && Possible(w, m)
    ensures WorldInv(NextWorld(w, m), n) && Later(w, NextWorld(w, m))
  {
    hide *;
    MoveIsLater(w, n, m);
    MoveKeepsChain(w, n, m);
    MoveKeepsStorage(w, n, m);
    MoveKeepsUploads(w, n, m);
    MoveKeepsDownloads(w, n, m);
    AllParts(NextWorld(w, m), n);
  }

  lemma StartInv(n: nat, nodes: set<string>)
    ensures WorldInv(Start(n, nodes), n)
  {
    hide ChainContainment.ChainInv;
    ChainContainment.InitialInv(n);
  }

  ghost predicate WorldRun(n: nat, nodes: set<string>, states: seq<World>, moves: seq<Move>) {
    && |states| == |moves| + 1 && states[0] == Start(n, nodes)
    && forall i: nat :: i < |moves| ==> Possible(states[i], moves[i]) && states[i + 1] == NextWorld(states[i], moves[i])
  }

  lemma {:induction false} EveryWorldIsSound(n: nat, nodes: set<string>, states: seq<World>, moves: seq<Move>, k: nat)
    requires WorldRun(n, nodes, states, moves) && k < |states|
    ensures WorldInv(states[k], n)
  {
    hide WorldInv, NextWorld, Possible, Start;
    if k == 0 {
      StartInv(n, nodes);
    } else {
      EveryWorldIsSound(n, nodes, states, moves, k - 1);
      MoveKeepsInv(states[k - 1], n, moves[k - 1]);
    }
  }
}
