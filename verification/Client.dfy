/** The client as it is written: the loops that place the chunks and publish the metadata, and the
    sweeps that find the metadata and fetch the chunks. The network is a parameter that says what
    every node answers; a node that cannot be reached answers with the empty string. */
module Clients {
  import opened Common
  import opened Words
  import opened FileUtils
  import opened HashUtils
  import opened DataPath
  import opened DataPathInvariant
  import opened EndToEnd
  import Dht = ConsistentHashing
  import Sha256
  import Wire

  /** `store` tells whether a node acknowledges a chunk, `fetch` what it returns for a hash, and
      `ask` what a metadata node replies to a command. */
  datatype Network = Network(
    store: (string, string, seq<Byte>) -> bool,
    fetch: (string, string) -> seq<Byte>,
    ask: (string, string) -> string)

  // ----- File names -----

  predicate IsSeparator(c: char) {
    c == '/' || c == '\\'
  }

  /** What follows the last separator of a path. */
  function BaseName(path: string): string {
    if path == "" || IsSeparator(path[|path| - 1]) then ""
    else BaseName(path[..|path| - 1]) + [path[|path| - 1]]
  }

  /** The name under which a file is published does not depend on its directory. */
  lemma {:induction false} BaseNameOf(dir: string, base: string)
    requires forall c :: c in base ==> !IsSeparator(c)
    requires dir == "" || IsSeparator(dir[|dir| - 1])
    ensures BaseName(dir + base) == base
  {
    if base == "" {
      assert dir + base == dir;
    } else {
      hide BaseName;
      var front, last := base[..|base| - 1], base[|base| - 1];
      assert last in base && base == front + [last];
      BaseNameOf(dir, front);
      LastOfPath(dir + front, last);
      assert dir + base == dir + front + [last];
    }
  }

  /** In full: everything after the last slash or backslash, and the whole path if there is none. */
  lemma {:induction false} BaseNameIs(path: string)
    ensures var base := BaseName(path);
            && '/' !in base && '\\' !in base
            && |base| <= |path| && path[|path| - |base|..] == base
            && (|base| < |path| ==> path[|path| - |base| - 1] in "/\\")
  {
    if path != "" && !IsSeparator(path[|path| - 1]) {
      BaseNameIs(path[..|path| - 1]);
    }
  }

  lemma LastOfPath(path: string, c: char)
    requires !IsSeparator(c)
    ensures BaseName(path + [c]) == BaseName(path) + [c]
  {
    assert (path + [c])[..|path|] == path;
  }

  // ----- Uploading -----

  /** Some replica of chunk i acknowledges it. */
  ghost predicate Placed(net: Network, ring: Dht.Ring, file: seq<Byte>, i: nat) {
    exists node :: node in Targets(ring, PieceHash(file, i)) && net.store(node, PieceHash(file, i), Piece(file, i))
  }

  ghost predicate AllPlaced(net: Network, ring: Dht.Ring, file: seq<Byte>) {
    forall i: nat :: i < PieceCount(|file|) ==> Placed(net, ring, file, i)
  }

  /** The sweep stops at the first node that acknowledges: the number of nodes asked. */
  function AskedUntilAck(net: Network, nodes: seq<string>, command: string): (n: nat)
    ensures n <= |nodes|
    ensures forall i :: 0 <= i < n - 1 ==> net.ask(nodes[i], command) != "ACK"
    ensures n < |nodes| ==> n > 0 && net.ask(nodes[n - 1], command) == "ACK"
  {
    if nodes == [] then 0
    else if net.ask(nodes[0], command) == "ACK" then 1
    else 1 + AskedUntilAck(net, nodes[1..], command)
  }

  /** The positions, below n, of the nodes that acknowledge the chunk. */
  function Acknowledging(net: Network, chunk: Chunk, nodes: seq<string>, n: nat): set<nat>
    requires n <= |nodes|
  {
    set i: nat | i < n && net.store(nodes[i], chunk.hash, chunk.data)
  }

  /** Tries every replica of a chunk, also after the first success, and counts the successes. */
  method PlaceChunk(net: Network, chunk: Chunk, nodes: seq<string>) returns (successes: nat)
    ensures successes == |Acknowledging(net, chunk, nodes, |nodes|)|
    ensures successes > 0 <==> exists node :: node in nodes && net.store(node, chunk.hash, chunk.data)
  {
    successes := 0;
    for i := 0 to |nodes|
      invariant successes == |Acknowledging(net, chunk, nodes, i)|
      invariant successes > 0 <==> exists j: nat :: j < i && net.store(nodes[j], chunk.hash, chunk.data)
    {
      ghost var before := Acknowledging(net, chunk, nodes, i);
      if net.store(nodes[i], chunk.hash, chunk.data) {
        successes := successes + 1;
        assert Acknowledging(net, chunk, nodes, i + 1) == before + {i};
      } else {
        assert Acknowledging(net, chunk, nodes, i + 1) == before;
      }
    }
  }

  /** The text that publishes a file, field by field: its size in bytes, the chunk size, the number
      of chunks, its identifier, and the digest of every piece in order. */
  ghost predicate IsPutText(text: string, file: seq<Byte>, base: string) {
    exists root: string, hashes: seq<string> ::
      && text == "PUT " + base + " " + Wire.Decimal(|file|) + " " + Wire.Decimal(1048576) + " " +
                 Wire.Decimal(|hashes|) + " " + root + " " + Wire.Join(hashes)
      && IsListing(file, root, hashes)
  }

  /** The identifier and the hash list of a file. */
  ghost predicate IsListing(file: seq<Byte>, root: string, hashes: seq<string>) {
    && IsCid(root, file) && |hashes| == (|file| + 1048575) / 1048576
    && forall i: nat :: i < |hashes| ==> hashes[i] == Sha256.Digest(Piece(file, i))
  }

  /** What a metadata node understands of the text is the file's metadata. */
  ghost predicate Publishes(text: string, file: seq<Byte>, base: string) {
    && var parsed := Wire.ParsePut(text);
    && parsed.Some?
    && parsed.value.filename == base && parsed.value.fileSize == |file| && parsed.value.chunkSize == 1048576
    && parsed.value.totalChunks == |parsed.value.chunkHashes|
    && parsed.value.rootHash == Cid(Some(file))
    && IsListing(file, parsed.value.rootHash, parsed.value.chunkHashes)
  }

  lemma ListingIs(file: seq<Byte>)
    requires file != []
    ensures IsListing(file, RootHash(FileHashes(file)), FileHashes(file))
    ensures RootHash(FileHashes(file)) == Cid(Some(file)) && |FileHashes(file)| == PieceCount(|file|)
  {
    hide Sha256.Digest, Piece, FileHashes, RootHash, IsCid;
    FileHashAt(file);
    CidIs(file);
    PieceIs(file, 0);
  }

  lemma TextIs(file: seq<Byte>, base: string)
    requires file != []
    ensures IsPutText(Wire.PrintPut(MetadataOf(file, base)), file, base)
  {
    hide RootHash, FileHashes, PieceCount, IsListing, Wire.Decimal, Wire.Join;
    ListingIs(file);
    var root, hashes := RootHash(FileHashes(file)), FileHashes(file);
    assert Wire.PrintPut(MetadataOf(file, base)) ==
           "PUT " + base + " " + Wire.Decimal(|file|) + " " + Wire.Decimal(1048576) + " " +
           Wire.Decimal(|hashes|) + " " + root + " " + Wire.Join(hashes);
  }

  /** The sizes of the chunks add up to the size that is published. */
  lemma {:induction false} SizesAddUp(file: seq<Byte>, n: nat)
    requires n <= |Chunks(file)|
    ensures (forall c :: c in Chunks(file) ==> Sound(c))
    ensures Offset(Chunks(file), n) == Cut(|file|, n)
  {
    ChunksCarry(file);
    if n > 0 {
      SizesAddUp(file, n - 1);
      PiecesAt(file, PieceCount(|file|), n - 1);
      CutGrows(|file|, n - 1);
    }
  }

  /** A node that receives an upload's text knows the file: a size that is the sum of the sizes of the
      chunks, the identifier, and the digest of every piece. */
  lemma UploadIsPublished(file: seq<Byte>, base: string)
    requires Uploadable(file, base)
    ensures Publishes(Wire.PrintPut(MetadataOf(file, base)), file, base)
    ensures (forall c :: c in Chunks(file) ==> Sound(c)) && Offset(Chunks(file), |Chunks(file)|) == |file|
  {
    hide RootHash, FileHashes, PieceCount, IsListing, Wire.ParsePut, Wire.PrintPut, Wire.WellFormed, Uploadable, Chunks;
    MetaIsWellFormed(file, base);
    Wire.PutRoundTrip(MetadataOf(file, base));
    NotEmpty(file, base);
    ListingIs(file);
    SizesAddUp(file, |Chunks(file)|);
    ChunkCount(file);
    CutGrows(|file|, |Chunks(file)|);
    hide Offset, Cut;
  }

  lemma NotEmpty(file: seq<Byte>, base: string)
    requires Uploadable(file, base)
    ensures file != []
  {
  }

  /** The upload succeeds exactly when every chunk was acknowledged by one of its replicas and then
      some metadata node acknowledged the metadata; no metadata node is asked before that. `sent` is
      the text that the metadata nodes are asked with, if any is. */
  method UploadFile(dht: Dht.ConsistentHash, metadataNodes: seq<string>, net: Network,
                    path: string, file: Option<seq<Byte>>) returns (asked: nat, sent: string, ok: bool)
    requires dht.Valid()
    ensures asked <= |metadataNodes|
    ensures file.None? || file.value == [] || !AllPlaced(net, dht.ring, file.value) ==> !ok && asked == 0 && sent == ""
    ensures file.Some? && file.value != [] && AllPlaced(net, dht.ring, file.value) ==>
              && sent == Wire.PrintPut(MetadataOf(file.value, BaseName(path)))
              && IsPutText(sent, file.value, BaseName(path))
              && (Uploadable(file.value, BaseName(path)) ==> Publishes(sent, file.value, BaseName(path)))
              && asked == AskedUntilAck(net, metadataNodes, sent)
              && (ok <==> exists m :: m in metadataNodes && net.ask(m, sent) == "ACK")
  {
    hide IsPutText, Publishes, Uploadable, Wire.PrintPut, FileHashes, RootHash, AllPlaced, Dht.WellPlaced;
    asked, sent, ok := 0, "", false;
    if file.None? || file.value == [] {
      return;
    }
    var bytes := file.value;
    var placed := PlaceChunks(dht, net, bytes);
    if !placed {
      return;
    }
    var hashes := HashesOf(bytes);
    var root := ComputeRootHash(hashes);
    var meta := FileMetadata(BaseName(path), |bytes|, CHUNK_SIZE, |hashes|, root, hashes);
    SameMetadata(bytes, BaseName(path));
    TextIs(bytes, BaseName(path));
    if Uploadable(bytes, BaseName(path)) {
      UploadIsPublished(bytes, BaseName(path));
    }
    sent := Wire.PrintPut(meta);
    asked, ok := PublishMetadata(metadataNodes, net, sent);
  }

  lemma SameMetadata(file: seq<Byte>, base: string)
    ensures MetadataOf(file, base).totalChunks == |FileHashes(file)|
  {
  }

  /** One turn of the chunk loop. */
  method PlaceOne(dht: Dht.ConsistentHash, net: Network, ghost file: seq<Byte>, chunk: Chunk, ghost i: nat) returns (placed: bool)
    requires dht.Valid() && chunk.data == Piece(file, i) && chunk.hash == PieceHash(file, i)
    ensures placed <==> Placed(net, dht.ring, file, i)
  {
    hide Piece, PieceHash, Dht.Replicas, Dht.WellPlaced;
    var nodes := dht.GetNodesForKey(chunk.hash, REPLICATION_FACTOR);
    var successes := PlaceChunk(net, chunk, nodes);
    placed := successes > 0;
  }

  /** The chunk loop: it stops at the first chunk that no replica takes. */
  method PlaceChunks(dht: Dht.ConsistentHash, net: Network, file: seq<Byte>) returns (placed: bool)
    requires dht.Valid()
    ensures placed <==> AllPlaced(net, dht.ring, file)
  {
    hide Sha256.Digest, Piece, PieceCount, Dht.WellPlaced, Placed;
    var chunks := SplitFileIntoChunks(Some(file));
    ChunksCarry(file);
    ChunkCount(file);
    for i := 0 to |chunks|
      invariant forall j: nat :: j < i ==> Placed(net, dht.ring, file, j)
    {
      assert Carries(chunks[i], file);
      var chunk := HashChunk(chunks[i]);
      WholeChunk(file, chunk, i);
      placed := PlaceOne(dht, net, file, chunk, i);
      if !placed {
        return;
      }
    }
    placed := true;
  }

  lemma WholeChunk(file: seq<Byte>, chunk: Chunk, i: nat)
    requires i < PieceCount(|file|) == |Chunks(file)| && Sound(Chunks(file)[i]) && chunk == Hashed(Chunks(file)[i])
    ensures chunk.data == Piece(file, i) && chunk.hash == PieceHash(file, i)
  {
    hide Sha256.Digest, Piece, Pieces, PieceCount;
    PiecesAt(file, PieceCount(|file|), i);
    var c := Chunks(file)[i];
    assert c.data[..|c.data|] == c.data;
  }

  /** The sweep over the metadata nodes, head first. */
  method PublishMetadata(nodes: seq<string>, net: Network, command: string) returns (asked: nat, ok: bool)
    ensures asked == AskedUntilAck(net, nodes, command)
    ensures ok <==> exists m :: m in nodes && net.ask(m, command) == "ACK"
  {
    asked, ok := 0, false;
    while asked < |nodes| && !ok
      invariant asked <= |nodes| && (ok ==> asked > 0)
      invariant AskedUntilAck(net, nodes, command) == asked + (if ok then 0 else AskedUntilAck(net, nodes[asked..], command))
      invariant forall i :: 0 <= i < (if ok then asked - 1 else asked) ==> net.ask(nodes[i], command) != "ACK"
      invariant ok ==> net.ask(nodes[asked - 1], command) == "ACK"
    {
      assert nodes[asked..][1..] == nodes[asked + 1..];
      ok := net.ask(nodes[asked], command) == "ACK";
      asked := asked + 1;
    }
  }

  // ----- Downloading -----

  /** What a client makes of a reply to its GET; it takes a reply for a hit if the name or the list
      of hashes is not empty. */
  function Understood(net: Network, node: string, name: string): Option<FileMetadata> {
    var meta := Wire.ParseFound(name, net.ask(node, "GET" + " " + name));
    if meta.Some? && (name != "" || meta.value.chunkHashes != []) then meta else None
  }

  /** The sweep from the last metadata node back. */
  function LastHit(net: Network, nodes: seq<string>, name: string): Option<FileMetadata> {
    if nodes == [] then None
    else
      var last := Understood(net, nodes[|nodes| - 1], name);
      if last.Some? then last else LastHit(net, nodes[..|nodes| - 1], name)
  }

  /** The first non-empty answer. */
  function FirstData(net: Network, nodes: seq<string>, hash: string): seq<Byte> {
    if nodes == [] then []
    else
      var data := net.fetch(nodes[0], hash);
      if data != [] then data else FirstData(net, nodes[1..], hash)
  }

  /** The data for every hash, if there is data for every one. */
  ghost function Collected(net: Network, ring: Dht.Ring, hashes: seq<string>): Option<seq<seq<Byte>>> {
    if hashes == [] then Some([])
    else
      var n := |hashes| - 1;
      var before := Collected(net, ring, hashes[..n]);
      var data := FirstData(net, Targets(ring, hashes[n]), hashes[n]);
      if before.None? || data == [] then None else Some(before.value + [data])
  }

  ghost predicate Available(net: Network, ring: Dht.Ring, hash: string) {
    FirstData(net, Targets(ring, hash), hash) != []
  }

  lemma {:induction false} CollectedIff(net: Network, ring: Dht.Ring, hashes: seq<string>)
    ensures Collected(net, ring, hashes).Some? <==> forall j: nat :: j < |hashes| ==> Available(net, ring, hashes[j])
  {
    hide FirstData, Targets;
    if hashes != [] {
      var n := |hashes| - 1;
      CollectedIff(net, ring, hashes[..n]);
      assert forall j: nat :: j < n ==> hashes[..n][j] == hashes[j];
      if forall j: nat :: j < |hashes| ==> Available(net, ring, hashes[j]) {
        assert Available(net, ring, hashes[n]);
      }
    }
  }

  lemma {:induction false} CollectedAt(net: Network, ring: Dht.Ring, hashes: seq<string>, j: nat)
    requires Collected(net, ring, hashes).Some? && j < |hashes|
    ensures |Collected(net, ring, hashes).value| == |hashes|
    ensures Collected(net, ring, hashes).value[j] == FirstData(net, Targets(ring, hashes[j]), hashes[j]) != []
  {
    hide FirstData, Targets;
    var n := |hashes| - 1;
    if j < n {
      CollectedAt(net, ring, hashes[..n], j);
    } else if n > 0 {
      CollectedAt(net, ring, hashes[..n], 0);
    }
  }

  /** What a download writes. */
  ghost function Downloaded(net: Network, ring: Dht.Ring, nodes: seq<string>, name: string): Option<seq<Byte>> {
    var meta := LastHit(net, nodes, name);
    if meta.None? || meta.value.chunkHashes == [] then None
    else
      var got := Collected(net, ring, meta.value.chunkHashes);
      if got.None? then None else Some(Glue(got.value))
  }

  /** The client asks with "GET " and the name, and takes what parses; without a name and without
      hashes there is nothing to take. */
  lemma UnderstoodIs(net: Network, node: string, name: string)
    ensures var parsed := Wire.ParseFound(name, net.ask(node, "GET " + name));
            Understood(net, node, name) ==
            if parsed.Some? && name == "" && parsed.value.chunkHashes == [] then None else parsed
  {
    hide Wire.ParseFound;
    assert "GET" + " " + name == "GET " + name;
  }

  /** The metadata comes from the last node in the list whose answer the client understands. */
  method FindMetadata(nodes: seq<string>, net: Network, name: string) returns (meta: Option<FileMetadata>)
    ensures meta == LastHit(net, nodes, name)
    ensures meta.None? <==> forall node :: node in nodes ==> Understood(net, node, name).None?
    ensures meta.Some? ==> exists i: nat :: i < |nodes| && Understood(net, nodes[i], name) == meta
                             && forall j: nat :: i < j < |nodes| ==> Understood(net, nodes[j], name).None?
  {
    hide Understood;
    meta := None;
    var i := |nodes|;
    assert nodes[..i] == nodes;
    while i > 0 && meta.None?
      invariant 0 <= i <= |nodes|
      invariant LastHit(net, nodes, name) == if meta.Some? then meta else LastHit(net, nodes[..i], name)
      invariant meta.Some? ==> i < |nodes| && Understood(net, nodes[i], name) == meta
      invariant forall j: nat :: (if meta.Some? then i < j else i <= j) && j < |nodes| ==>
                  Understood(net, nodes[j], name).None?
    {
      i := i - 1;
      assert nodes[..i + 1][..i] == nodes[..i];
      meta := Understood(net, nodes[i], name);
    }
  }

  /** The answer of the first node that has one. */
  lemma {:induction false} FirstDataIs(net: Network, nodes: seq<string>, hash: string)
    ensures FirstData(net, nodes, hash) == [] <==> forall node :: node in nodes ==> net.fetch(node, hash) == []
    ensures FirstData(net, nodes, hash) != [] ==>
              exists q: nat :: q < |nodes| && net.fetch(nodes[q], hash) == FirstData(net, nodes, hash)
                && forall p: nat :: p < q ==> net.fetch(nodes[p], hash) == []
  {
    if nodes != [] && net.fetch(nodes[0], hash) == [] {
      var rest := nodes[1..];
      FirstDataIs(net, rest, hash);
      assert nodes == [nodes[0]] + rest;
      if FirstData(net, nodes, hash) != [] {
        var q: nat :| q < |rest| && net.fetch(rest[q], hash) == FirstData(net, rest, hash)
          && forall p: nat :: p < q ==> net.fetch(rest[p], hash) == [];
        assert net.fetch(nodes[q + 1], hash) == FirstData(net, nodes, hash);
        forall p: nat | p < q + 1
          ensures net.fetch(nodes[p], hash) == []
        {
          assert p > 0 ==> nodes[p] == rest[p - 1];
        }
      }
    }
  }

  method FetchChunk(net: Network, nodes: seq<string>, hash: string) returns (data: seq<Byte>)
    ensures data == FirstData(net, nodes, hash)
  {
    data := [];
    var i := 0;
    while i < |nodes| && data == []
      invariant i <= |nodes|
      invariant FirstData(net, nodes, hash) == if data != [] then data else FirstData(net, nodes[i..], hash)
    {
      assert nodes[i..][1..] == nodes[i + 1..];
      data := net.fetch(nodes[i], hash);
      i := i + 1;
    }
  }

  /** The chunk loop of a download, which stops at the first chunk that no replica returns. */
  method FetchChunks(dht: Dht.ConsistentHash, net: Network, hashes: seq<string>)
    returns (chunks: seq<Chunk>, ok: bool, ghost got: seq<seq<Byte>>)
    requires dht.Valid()
    ensures ok <==> Collected(net, dht.ring, hashes).Some?
    ensures ok ==> Collected(net, dht.ring, hashes) == Some(got) && |got| == |hashes| && chunks == Received(hashes, got)
  {
    hide FirstData, Collected, Received, Dht.Replicas, Dht.WellPlaced;
    chunks, got := [], [];
    NothingCollected(net, dht.ring);
    for i := 0 to |hashes|
      invariant |chunks| == |got| == i && chunks == Received(hashes[..i], got)
      invariant Collected(net, dht.ring, hashes[..i]) == Some(got)
    {
      var nodes := dht.GetNodesForKey(hashes[i], REPLICATION_FACTOR);
      var data := FetchChunk(net, nodes, hashes[i]);
      OneMoreHash(net, dht.ring, hashes, i);
      if data == [] {
        ok := false;
        return;
      }
      ReceivedMore(hashes, got, i, data);
      chunks := chunks + [Chunk(i, hashes[i], data, |data|)];
      got := got + [data];
    }
    assert hashes[..|hashes|] == hashes;
    ok := true;
  }

  lemma NothingCollected(net: Network, ring: Dht.Ring)
    ensures Collected(net, ring, []) == Some([]) && Received([], []) == []
  {
  }

  /** Fetches and reconstructs; nothing is written when the metadata or any chunk is missing. */
  method DownloadFile(dht: Dht.ConsistentHash, metadataNodes: seq<string>, net: Network, name: string, creatable: bool)
    returns (out: Option<seq<Byte>>)
    requires dht.Valid()
    ensures out == if creatable then Downloaded(net, dht.ring, metadataNodes, name) else None
  {
    hide LastHit, Collected, Received, Glue, Reconstructs, Complete, Dht.WellPlaced;
    out := None;
    var meta := FindMetadata(metadataNodes, net, name);
    if meta.None? {
      return;
    }
    var hashes := meta.value.chunkHashes;
    var chunks, ok, got := FetchChunks(dht, net, hashes);
    if !ok {
      return;
    }
    if chunks == [] {
      out := ReconstructFile(chunks, creatable);
      return;
    }
    GluedIsReconstructed(hashes, got);
    out := ReconstructFile(chunks, creatable);
    if out.Some? {
      ReconstructionIsUnique(chunks, out.value, Glue(got));
    }
  }

  /** A missing chunk anywhere means that the download collects nothing. */
  lemma OneMoreHash(net: Network, ring: Dht.Ring, hashes: seq<string>, i: nat)
    requires i < |hashes|
    ensures var before, data := Collected(net, ring, hashes[..i]), FirstData(net, Targets(ring, hashes[i]), hashes[i]);
            && Collected(net, ring, hashes[..i + 1]) == (if before.None? || data == [] then None else Some(before.value + [data]))
            && (data == [] ==> Collected(net, ring, hashes).None?)
  {
    hide FirstData, Targets;
    assert hashes[..i + 1][..i] == hashes[..i];
    CollectedIff(net, ring, hashes);
    assert Available(net, ring, hashes[i]) <==> FirstData(net, Targets(ring, hashes[i]), hashes[i]) != [];
  }

  lemma ReceivedMore(hashes: seq<string>, got: seq<seq<Byte>>, i: nat, data: seq<Byte>)
    requires i < |hashes| && |got| == i
    ensures Received(hashes[..i + 1], got + [data]) == Received(hashes[..i], got) + [Chunk(i, hashes[i], data, |data|)]
  {
    hide Received;
    var some, more := hashes[..i + 1], got + [data];
    LastReceived(some, more);
    Front(hashes, i);
    assert more[..i] == got;
  }

  lemma LastReceived(hashes: seq<string>, got: seq<seq<Byte>>)
    requires |got| == |hashes| > 0
    ensures var n := |hashes| - 1;
            Received(hashes, got) == Received(hashes[..n], got[..n]) + [Chunk(n, hashes[n], got[n], |got[n]|)]
  {
  }

  lemma Front(hashes: seq<string>, i: nat)
    requires i < |hashes|
    ensures hashes[..i + 1][..i] == hashes[..i] && hashes[..i + 1][i] == hashes[i]
  {
  }

  // ----- The round trip through the text protocol -----

  /** Every storage node returns nothing or bytes with the digest asked for. */
  ghost predicate Faithful(net: Network) {
    forall node, hash :: net.fetch(node, hash) == [] || Sha256.Digest(net.fetch(node, hash)) == hash
  }

  /** The node answers a GET for the name with what it understood of the PUT command. */
  ghost predicate ServesPut(net: Network, node: string, command: string, name: string) {
    var meta := Wire.ParsePut(command);
    meta.Some? && net.ask(node, "GET" + " " + name) == Wire.PrintFound(meta.value)
  }

  /** A node that stored an upload's PUT text makes a client understand the upload's metadata. */
  lemma ServedIsUnderstood(net: Network, node: string, file: seq<Byte>, base: string)
    requires Uploadable(file, base) && ServesPut(net, node, Wire.PrintPut(MetadataOf(file, base)), base)
    ensures Understood(net, node, base) == Some(MetadataOf(file, base))
  {
    MetaIsWellFormed(file, base);
    var meta := MetadataOf(file, base);
    hide MetadataOf, Wire.ParsePut, Wire.ParseFound, Wire.PrintPut, Wire.PrintFound;
    Wire.MetadataSurvives(meta);
    Wire.PutRoundTrip(meta);
    NamedAfter(file, base);
  }

  lemma NamedAfter(file: seq<Byte>, base: string)
    ensures MetadataOf(file, base).filename == base
    ensures Uploadable(file, base) ==> base != ""
  {
    hide RootHash, FileHashes;
  }

  /** A download writes something exactly when every chunk can be had from one of its replicas,
      whatever bytes they return: nothing is verified. */
  lemma DownloadedIffAvailable(net: Network, ring: Dht.Ring, nodes: seq<string>, name: string, meta: FileMetadata)
    requires LastHit(net, nodes, name) == Some(meta) && meta.chunkHashes != []
    ensures Downloaded(net, ring, nodes, name).Some? <==>
              forall h :: h in meta.chunkHashes ==> Available(net, ring, h)
  {
    hide *;
    DownloadedBy(net, ring, nodes, name, meta);
    CollectedIff(net, ring, meta.chunkHashes);
    assert forall j: nat :: j < |meta.chunkHashes| ==> meta.chunkHashes[j] in meta.chunkHashes;
  }

  /** If storage nodes return only bytes with the digest asked for, and the metadata found lists a
      file's hashes, a download writes that file or exhibits a collision. */
  lemma DownloadReadsUpload(net: Network, ring: Dht.Ring, nodes: seq<string>, name: string,
                            file: seq<Byte>, meta: FileMetadata)
    requires Faithful(net) && file != []
    requires LastHit(net, nodes, name) == Some(meta) && meta.chunkHashes == FileHashes(file)
    ensures var out := Downloaded(net, ring, nodes, name);
            && (out.Some? ==> ExactOrCollision(file, out.value))
            && (out.Some? <==> forall h :: h in FileHashes(file) ==> Available(net, ring, h))
  {
    hide *;
    EmptyFileHasNoPieces(file);
    FileHashAt(file);
    DownloadedBy(net, ring, nodes, name, meta);
    DownloadedIffAvailable(net, ring, nodes, name, meta);
    if Collected(net, ring, meta.chunkHashes).Some? {
      CollectedIsFaithful(net, ring, meta, Collected(net, ring, meta.chunkHashes).value);
      GotIsExact(file, meta, Collected(net, ring, meta.chunkHashes).value);
    }
  }

  /** A network in which one metadata node serves the upload of a file, and every storage node returns
      the same bytes for every hash. */
  function Impostor(file: seq<Byte>, base: string, other: seq<Byte>): Network {
    Network((node, hash, data) => true, (node, hash) => other,
            (node, command) => Wire.PrintFound(MetadataOf(file, base)))
  }

  /** So a download accepts any bytes in the place of a file's only chunk. */
  lemma OtherBytesAreAccepted(file: seq<Byte>, base: string, other: seq<Byte>, ring: Dht.Ring, node: string)
    requires Uploadable(file, base) && PieceCount(|file|) == 1 && other != [] && |ring| >= 1
    ensures LastHit(Impostor(file, base, other), [node], base) == Some(MetadataOf(file, base))
    ensures Downloaded(Impostor(file, base, other), ring, [node], base) == Some(other)
    ensures !Faithful(Impostor(file, base, other))
  {
    hide *;
    var net := Impostor(file, base, other);
    var meta := MetadataOf(file, base);
    ImpostorServes(file, base, other, node);
    HashesOfPieces(file);
    MetaHashes(Upload(file, base, ring, Publishing));
    MetaOfUpload(file, base, ring);
    assert meta.chunkHashes == [PieceHash(file, 0)];
    DownloadedBy(net, ring, [node], base, meta);
    OneChunk(file, base, other, ring, PieceHash(file, 0));
    ImpostorLies(file, base, other);
  }

  lemma MetaOfUpload(file: seq<Byte>, base: string, ring: Dht.Ring)
    ensures Meta(Upload(file, base, ring, Publishing)) == MetadataOf(file, base)
  {
    hide MetadataOf;
  }

  lemma ImpostorServes(file: seq<Byte>, base: string, other: seq<Byte>, node: string)
    requires Uploadable(file, base)
    ensures LastHit(Impostor(file, base, other), [node], base) == Some(MetadataOf(file, base))
  {
    hide MetadataOf, Wire.ParsePut, Wire.ParseFound, Wire.PrintPut, Wire.PrintFound, Wire.WellFormed, Wire.BodyOk, Uploadable;
    MetaIsWellFormed(file, base);
    WellFormedBody(MetadataOf(file, base));
    Wire.FoundRoundTrip(MetadataOf(file, base));
    NamedAfter(file, base);
  }

  lemma WellFormedBody(meta: FileMetadata)
    requires Wire.WellFormed(meta)
    ensures Wire.BodyOk(meta)
  {
    hide Wire.BodyOk;
  }

  lemma OneChunk(file: seq<Byte>, base: string, other: seq<Byte>, ring: Dht.Ring, hash: string)
    requires other != [] && |ring| >= 1
    ensures Collected(Impostor(file, base, other), ring, [hash]) == Some([other]) && Glue([other]) == other
  {
    hide *;
    var net := Impostor(file, base, other);
    SomeTarget(ring, hash);
    ImpostorFetches(file, base, other, Targets(ring, hash), hash);
    DataIsAvailable(net, ring, hash);
    CollectedIff(net, ring, [hash]);
    CollectedAt(net, ring, [hash], 0);
    assert Collected(net, ring, [hash]).value == [other];
    GlueOne(other);
  }

  lemma ImpostorFetches(file: seq<Byte>, base: string, other: seq<Byte>, nodes: seq<string>, hash: string)
    requires other != [] && nodes != []
    ensures FirstData(Impostor(file, base, other), nodes, hash) == other
  {
    hide MetadataOf, Wire.PrintFound;
    assert Impostor(file, base, other).fetch(nodes[0], hash) == other;
  }

  lemma DataIsAvailable(net: Network, ring: Dht.Ring, hash: string)
    ensures Available(net, ring, hash) <==> FirstData(net, Targets(ring, hash), hash) != []
  {
    hide FirstData, Targets;
  }

  lemma GlueOne(data: seq<Byte>)
    ensures Glue([data]) == data
  {
    assert [data][..0] == [] && [] + data == data;
    assert Glue([]) == [];
  }

  lemma SomeTarget(ring: Dht.Ring, hash: string)
    requires |ring| >= 1
    ensures Targets(ring, hash) != []
  {
    Dht.ReplicasDef(ring, hash, REPLICATION_FACTOR);
    hide Dht.Order, Dht.Replicas;
  }

  lemma ImpostorLies(file: seq<Byte>, base: string, other: seq<Byte>)
    requires other != []
    ensures !Faithful(Impostor(file, base, other))
  {
    Sha256.DigestShape(other);
    hide Sha256.Digest, MetadataOf, Wire.PrintFound;
    assert Impostor(file, base, other).fetch("", "") == other;
  }

  lemma DownloadedBy(net: Network, ring: Dht.Ring, nodes: seq<string>, name: string, meta: FileMetadata)
    requires LastHit(net, nodes, name) == Some(meta) && meta.chunkHashes != []
    ensures var got := Collected(net, ring, meta.chunkHashes);
            Downloaded(net, ring, nodes, name) == if got.None? then None else Some(Glue(got.value))
  {
    hide LastHit, Collected;
  }

  /** The last node that answers decides, whatever the nodes before it hold. */
  lemma {:induction false} HitAt(net: Network, nodes: seq<string>, name: string, last: nat)
    requires last < |nodes| && Understood(net, nodes[last], name).Some?
    requires forall i: nat :: last < i < |nodes| ==> Understood(net, nodes[i], name).None?
    ensures LastHit(net, nodes, name) == Understood(net, nodes[last], name)
  {
    hide Understood;
    if last < |nodes| - 1 {
      HitAt(net, nodes[..|nodes| - 1], name, last);
    }
  }

  lemma {:induction false} FirstDataIsFaithful(net: Network, nodes: seq<string>, hash: string)
    requires Faithful(net)
    ensures FirstData(net, nodes, hash) == [] || Sha256.Digest(FirstData(net, nodes, hash)) == hash
  {
    hide Sha256.Digest;
    if nodes != [] {
      FirstDataIsFaithful(net, nodes[1..], hash);
    }
  }

  lemma CollectedIsFaithful(net: Network, ring: Dht.Ring, meta: FileMetadata, got: seq<seq<Byte>>)
    requires Faithful(net) && Collected(net, ring, meta.chunkHashes) == Some(got)
    ensures GotOk(meta, got) && |got| == |meta.chunkHashes|
  {
    hide Sha256.Digest, FirstData, Targets, Faithful, Collected;
    if meta.chunkHashes != [] {
      CollectedAt(net, ring, meta.chunkHashes, 0);
    } else {
      NothingCollected(net, ring);
    }
    forall j: nat | j < |got|
      ensures got[j] != [] && Sha256.Digest(got[j]) == meta.chunkHashes[j]
    {
      CollectedAt(net, ring, meta.chunkHashes, j);
      FirstDataIsFaithful(net, Targets(ring, meta.chunkHashes[j]), meta.chunkHashes[j]);
    }
  }
}
