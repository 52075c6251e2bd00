/** The whole data path as one transition system: uploads that place every chunk on the two replicas of
    its hash and then publish the metadata in the chain, downloads that ask the chain and then
    fetch chunk by chunk, and below them the chain's and the storage nodes' own steps, crashes
    included, in any interleaving. */
module DataPath {
  import opened Common
  import opened Words
  import opened FileUtils
  import opened HashUtils
  import opened StorageSystem
  import Dht = ConsistentHashing
  import Chain = ChainSystem
  import Sha256
  import Wire

  const REPLICATION_FACTOR := 2

  /** Where an upload is: about to try replica r of chunk i, with `acks` successes for that chunk
      so far; waiting for a connection; done with the chunks; or in the hands of the chain. */
  datatype UploadPhase =
    | Placing(i: nat, r: nat, acks: nat)
    | Sending(i: nat, r: nat, acks: nat, conn: nat)
    | Publishing
    | Published(op: nat)
    | Aborted

  datatype Upload = Upload(file: seq<Byte>, base: string, ring: Dht.Ring, phase: UploadPhase)

  /** Where a download is: waiting for the chain; about to try replica r of chunk i, with the
      earlier chunks got; finished, or not. */
  datatype DownloadPhase =
    | Asking
    | NotFound
    | Fetching(meta: FileMetadata, i: nat, r: nat, got: seq<seq<Byte>>)
    | Done(meta: FileMetadata, out: seq<Byte>)
    | FailedAt(meta: FileMetadata, i: nat)

  /** `known` is history: how many operations the chain had seen when it answered. */
  datatype Download = Download(name: string, ring: Dht.Ring, op: nat, known: nat, phase: DownloadPhase)

  datatype World = World(storage: Storage, chain: Chain.Sys, uploads: seq<Upload>, downloads: seq<Download>)

  datatype Move =
    | Begin(file: seq<Byte>, base: string, ring: Dht.Ring)
    | Place(u: nat)
    | Hear(u: nat)
    | Publish(u: nat)
    | Ask(name: string, ring: Dht.Ring)
    | Answer(d: nat)
    | Fetch(d: nat)
    | ChainMove(st: Chain.Step)
    | StorageMove(act: StorageStep)

  function Start(n: nat, nodes: set<string>): World {
    World(NoBlobs(nodes), Chain.Initial(n), [], [])
  }

  // ----- What the client computes -----

  function MetadataOf(file: seq<Byte>, base: string): FileMetadata {
    FileMetadata(base, |file|, CHUNK_SIZE, PieceCount(|file|), RootHash(FileHashes(file)), FileHashes(file))
  }

  function Meta(u: Upload): FileMetadata {
    MetadataOf(u.file, u.base)
  }

  function PieceHash(file: seq<Byte>, i: nat): string {
    Sha256.Digest(Piece(file, i))
  }

  /** The replicas of a hash as a client sees them. */
  ghost function Targets(ring: Dht.Ring, hash: string): seq<string> {
    Dht.Replicas(ring, hash, REPLICATION_FACTOR)
  }

  /** The file names and sizes that the text protocol can carry. */
  ghost predicate Uploadable(file: seq<Byte>, base: string) {
    file != [] && Wire.Token(base) && |file| <= Wire.INT64_MAX && PieceCount(|file|) <= Wire.INT32_MAX
  }

  function Glue(got: seq<seq<Byte>>): seq<Byte> {
    if got == [] then [] else Glue(got[..|got| - 1]) + got[|got| - 1]
  }

  /** The chunks that a download hands to the reconstruction. */
  function Received(hashes: seq<string>, got: seq<seq<Byte>>): (chunks: seq<Chunk>)
    requires |hashes| == |got|
    ensures |chunks| == |got|
    ensures forall i: nat :: i < |got| ==> chunks[i] == Chunk(i, hashes[i], got[i], |got[i]|)
  {
    if got == [] then []
    else
      var n := |got| - 1;
      Received(hashes[..n], got[..n]) + [Chunk(n, hashes[n], got[n], |got[n]|)]
  }

  // ----- The moves -----

  ghost predicate Possible(w: World, m: Move) {
    match m
    case Begin(file, base, ring) => Uploadable(file, base) && Dht.WellPlaced(ring)
    case Place(u) =>
      u < |w.uploads| && w.uploads[u].phase.Placing? && w.uploads[u].phase.i < PieceCount(|w.uploads[u].file|)
    case Hear(u) =>
      && u < |w.uploads| && w.uploads[u].phase.Sending? && w.uploads[u].phase.conn < |w.storage.conns|
      && (var phase := w.storage.conns[w.uploads[u].phase.conn].phase; phase.Acked? || phase.Refused?)
    case Publish(u) =>
      u < |w.uploads| && w.uploads[u].phase.Publishing? && Chain.Enabled(w.chain, Chain.InvokePut(Meta(w.uploads[u])))
    case Ask(_, ring) => Dht.WellPlaced(ring)
    case Answer(d) =>
      && d < |w.downloads| && w.downloads[d].phase.Asking?
      && w.downloads[d].op < |w.chain.ops| && w.chain.ops[w.downloads[d].op].result.Some?
    case Fetch(d) => d < |w.downloads| && w.downloads[d].phase.Fetching?
    case ChainMove(st) => !st.InvokePut? && !st.InvokeGet? && Chain.Enabled(w.chain, st)
    case StorageMove(st) => !st.OpenStore? && StepEnabled(w.storage, st)
  }

  ghost function SetUpload(w: World, u: nat, phase: UploadPhase): World
    requires u < |w.uploads|
  {
    w.(uploads := w.uploads[u := w.uploads[u].(phase := phase)])
  }

  ghost function SetDownload(w: World, d: nat, phase: DownloadPhase): World
    requires d < |w.downloads|
  {
    w.(downloads := w.downloads[d := w.downloads[d].(phase := phase)])
  }

  /** Tries the next replica of the chunk; after the last one, goes on to the next chunk, or
      gives up when no replica took this one. */
  ghost function DoPlace(w: World, u: nat): World
    requires Possible(w, Place(u))
  {
    var up := w.uploads[u];
    var Placing(i, r, acks) := up.phase;
    var targets := Targets(up.ring, PieceHash(up.file, i));
    if r < |targets| then
      var st := OpenStore(u, targets[r], Piece(up.file, i));
      if StepEnabled(w.storage, st) then
        SetUpload(w, u, Sending(i, r, acks, |w.storage.conns|)).(storage := NextStorage(w.storage, st))
      else SetUpload(w, u, Placing(i, r + 1, acks))
    else if acks == 0 then SetUpload(w, u, Aborted)
    else if i + 1 < PieceCount(|up.file|) then SetUpload(w, u, Placing(i + 1, 0, 0))
    else SetUpload(w, u, Publishing)
  }

  ghost function DoHear(w: World, u: nat): World
    requires Possible(w, Hear(u))
  {
    var Sending(i, r, acks, conn) := w.uploads[u].phase;
    SetUpload(w, u, Placing(i, r + 1, if w.storage.conns[conn].phase.Acked? then acks + 1 else acks))
  }

  ghost function DoPublish(w: World, u: nat): World
    requires Possible(w, Publish(u))
  {
    SetUpload(w, u, Published(|w.chain.ops|)).(chain := Chain.Next(w.chain, Chain.InvokePut(Meta(w.uploads[u]))))
  }

  ghost function DoAnswer(w: World, d: nat): World
    requires Possible(w, Answer(d))
  {
    var outcome := w.chain.ops[w.downloads[d].op].result.value;
    w.(downloads := w.downloads[d := w.downloads[d].(
      known := |w.chain.ops|,
      phase := if outcome.GetFound? then Fetching(outcome.meta, 0, 0, []) else NotFound)])
  }

  /** Tries the next replica for the next chunk; with all chunks, reconstructs the file. */
  ghost function DoFetch(w: World, d: nat): World
    requires Possible(w, Fetch(d))
  {
    var down := w.downloads[d];
    var Fetching(meta, i, r, got) := down.phase;
    if i >= |meta.chunkHashes| then
      SetDownload(w, d, if got == [] then FailedAt(meta, i) else Done(meta, Glue(got)))
    else
      var hash := meta.chunkHashes[i];
      var targets := Targets(down.ring, hash);
      if r >= |targets| then SetDownload(w, d, FailedAt(meta, i))
      else if targets[r] in w.storage.up && Holds(w.storage, targets[r], hash) && w.storage.blobs[targets[r]][hash] != [] then
        SetDownload(w, d, Fetching(meta, i + 1, 0, got + [w.storage.blobs[targets[r]][hash]]))
      else SetDownload(w, d, Fetching(meta, i, r + 1, got))
  }

  ghost function NextWorld(w: World, m: Move): World
    requires Possible(w, m)
  {
    match m
    case Begin(file, base, ring) => w.(uploads := w.uploads + [Upload(file, base, ring, Placing(0, 0, 0))])
    case Place(u) => DoPlace(w, u)
    case Hear(u) => DoHear(w, u)
    case Publish(u) => DoPublish(w, u)
    case Ask(name, ring) =>
      w.(downloads := w.downloads + [Download(name, ring, |w.chain.ops|, 0, Asking)],
         chain := Chain.Next(w.chain, Chain.InvokeGet(name)))
    case Answer(d) => DoAnswer(w, d)
    case Fetch(d) => DoFetch(w, d)
    case ChainMove(st) => w.(chain := Chain.Next(w.chain, st))
    case StorageMove(st) => w.(storage := NextStorage(w.storage, st))
  }
}
