/** The two-level content hash: a digest per chunk, and the digest of the digests. */
module HashUtils {
  import opened Common
  import opened Words
  import opened FileUtils
  import opened Sha256

  /** Two different strings of bytes with the same digest. */
  ghost predicate Collision(x: seq<Byte>, y: seq<Byte>) {
    x != y && Digest(x) == Digest(y)
  }

  /** A string as the bytes that its characters stand for. */
  function Bytes(text: string): (bytes: seq<Byte>)
    ensures |bytes| == |text|
    ensures forall i :: 0 <= i < |text| ==> bytes[i] == text[i] as int % 256
  {
    if text == "" then [] else Bytes(text[..|text| - 1]) + [text[|text| - 1] as int % 256]
  }

  function Concat(hashes: seq<string>): string {
    if hashes == [] then "" else Concat(hashes[..|hashes| - 1]) + hashes[|hashes| - 1]
  }

  function RootHash(hashes: seq<string>): string {
    Digest(Bytes(Concat(hashes)))
  }

  function Hashed(c: Chunk): Chunk
    requires Sound(c)
  {
    c.(hash := Digest(Content(c)))
  }

  /** The digests of the first n pieces of a file. */
  function PieceHashes(file: seq<Byte>, n: nat): (hashes: seq<string>)
    ensures |hashes| == n
  {
    if n == 0 then [] else PieceHashes(file, n - 1) + [Digest(Piece(file, n - 1))]
  }

  lemma {:induction false} PieceHashAt(file: seq<Byte>, n: nat, i: nat)
    requires i < n
    ensures PieceHashes(file, n)[i] == Digest(Piece(file, i))
  {
    hide Digest, Piece;
    if i < n - 1 {
      PieceHashAt(file, n - 1, i);
    }
  }

  function FileHashes(file: seq<Byte>): seq<string> {
    PieceHashes(file, PieceCount(|file|))
  }

  lemma FileHashAt(file: seq<Byte>)
    ensures |FileHashes(file)| == PieceCount(|file|)
    ensures forall i: nat :: i < PieceCount(|file|) ==> FileHashes(file)[i] == Digest(Piece(file, i))
  {
    hide Digest, Piece;
    forall i: nat | i < PieceCount(|file|)
      ensures FileHashes(file)[i] == Digest(Piece(file, i))
    {
      PieceHashAt(file, PieceCount(|file|), i);
    }
  }

  /** Whole-file identifier; a file that is empty or cannot be read has none. */
  function Cid(file: Option<seq<Byte>>): string {
    if file.None? || file.value == [] then "" else RootHash(FileHashes(file.value))
  }

  // ----- What is hashed -----

  /** The bytes are the characters of the digests, 64 for each, in the order of the list. */
  ghost predicate Spells(bytes: seq<Byte>, digests: seq<string>) {
    && |bytes| == 64 * |digests| && (forall i: nat :: i < |digests| ==> |digests[i]| == 64)
    && forall i: nat, m: nat :: i < |digests| && m < 64 ==> bytes[64 * i + m] == digests[i][m] as int % 256
  }

  /** Every digest of the list stands at its place in the concatenation. */
  lemma {:induction false} ConcatAt(hashes: seq<string>, i: nat)
    requires i < |hashes| && forall j :: 0 <= j < |hashes| ==> |hashes[j]| == 64
    ensures |Concat(hashes)| == 64 * |hashes| && Concat(hashes)[64 * i..64 * (i + 1)] == hashes[i]
  {
    var n := |hashes| - 1;
    ConcatLength(hashes[..n]);
    if i < n {
      ConcatAt(hashes[..n], i);
      assert hashes[..n][i] == hashes[i];
    }
  }

  lemma RootSpells(hashes: seq<string>)
    requires forall j :: 0 <= j < |hashes| ==> |hashes[j]| == 64
    ensures Spells(Bytes(Concat(hashes)), hashes)
  {
    ConcatLength(hashes);
    hide Concat;
    forall i: nat, m: nat | i < |hashes| && m < 64
      ensures Bytes(Concat(hashes))[64 * i + m] == hashes[i][m] as int % 256
    {
      ConcatAt(hashes, i);
      assert Concat(hashes)[64 * i..64 * (i + 1)][m] == Concat(hashes)[64 * i + m];
    }
  }

  /** The identifier of a file is the digest of the digests of its pieces, one after the other. */
  ghost predicate IsCid(cid: string, file: seq<Byte>) {
    exists bytes: seq<Byte>, digests: seq<string> ::
      && Spells(bytes, digests) && cid == Digest(bytes)
      && |digests| == PieceCount(|file|) && forall i: nat :: i < |digests| ==> digests[i] == Digest(Piece(file, i))
  }

  lemma CidIs(file: seq<Byte>)
    requires file != []
    ensures IsCid(Cid(Some(file)), file)
  {
    FileHashAt(file);
    FileHashesShape(file);
    hide Digest, Piece, PieceCount, FileHashes, IsHex;
    RootSpells(FileHashes(file));
    hide Spells;
  }

  // ----- The program -----

  /** The second chunk is the first one with the digest of its valid bytes, and not otherwise changed. */
  ghost predicate CarriesDigest(before: Chunk, after: Chunk) {
    && 0 <= before.size <= |before.data|
    && after.index == before.index && after.data == before.data && after.size == before.size
    && after.hash == Digest(before.data[..before.size])
  }

  method HashChunk(chunk: Chunk) returns (r: Chunk)
    requires Sound(chunk)
    ensures r == Hashed(chunk) && CarriesDigest(chunk, r)
  {
    var validData := chunk.data[..chunk.size];
    var hash := ComputeSha256(validData);
    r := chunk.(hash := hash);
  }

  /** Every chunk of the list gets its hash, in place. */
  method HashAllChunks(chunks: array<Chunk>)
    requires forall i :: 0 <= i < chunks.Length ==> Sound(chunks[i])
    modifies chunks
    ensures forall i :: 0 <= i < chunks.Length ==> Sound(old(chunks[i])) && chunks[i] == Hashed(old(chunks[i]))
    ensures forall i :: 0 <= i < chunks.Length ==> CarriesDigest(old(chunks[i]), chunks[i])
  {
    hide *;
    for i := 0 to chunks.Length
      invariant forall j :: i <= j < chunks.Length ==> chunks[j] == old(chunks[j])
      invariant forall j :: 0 <= j < i ==> chunks[j] == Hashed(old(chunks[j]))
      invariant forall j :: 0 <= j < i ==> CarriesDigest(old(chunks[j]), chunks[j])
    {
      var hashed := HashChunk(chunks[i]);
      chunks[i] := hashed;
    }
  }

  method ComputeRootHash(chunkHashes: seq<string>) returns (root: string)
    ensures root == RootHash(chunkHashes)
    ensures (forall i :: 0 <= i < |chunkHashes| ==> |chunkHashes[i]| == 64) ==>
              exists bytes :: Spells(bytes, chunkHashes) && root == Digest(bytes)
  {
    hide Digest, Spells;
    var combined := "";
    for i := 0 to |chunkHashes|
      invariant combined == Concat(chunkHashes[..i])
    {
      assert chunkHashes[..i + 1][..i] == chunkHashes[..i];
      combined := combined + chunkHashes[i];
    }
    assert chunkHashes[..|chunkHashes|] == chunkHashes;
    root := ComputeSha256(Bytes(combined));
    if forall i :: 0 <= i < |chunkHashes| ==> |chunkHashes[i]| == 64 {
      RootSpells(chunkHashes);
    }
  }

  /** The hashes of a file's chunks, chunk by chunk. */
  method HashesOf(file: seq<Byte>) returns (hashes: seq<string>)
    ensures hashes == FileHashes(file)
  {
    hide Digest, Chunks, Piece, PieceCount;
    var list := SplitFileIntoChunks(Some(file));
    ChunksCarry(file);
    ChunkCount(file);
    var chunks := new Chunk[|list|] (i requires 0 <= i < |list| => list[i]);
    assert forall i :: 0 <= i < |list| ==> list[i] in list && Carries(list[i], file);
    HashAllChunks(chunks);
    hashes := [];
    for i := 0 to chunks.Length
      invariant hashes == PieceHashes(file, i)
    {
      assert Carries(list[i], file);
      hashes := hashes + [chunks[i].hash];
    }
  }

  lemma ChunkCount(file: seq<Byte>)
    ensures |Chunks(file)| == PieceCount(|file|) && (Chunks(file) == [] <==> file == [])
  {
  }

  method ComputeCID(file: Option<seq<Byte>>) returns (cid: string)
    ensures cid == Cid(file)
    ensures file.None? || file.value == [] ==> cid == ""
    ensures file.Some? && file.value != [] ==> IsCid(cid, file.value)
  {
    hide Digest, IsCid, FileHashes, RootHash, PieceCount, Chunks;
    var chunks := SplitFileIntoChunks(file);
    if file.Some? {
      ChunkCount(file.value);
    }
    if chunks == [] {
      return "";
    }
    var hashes := HashesOf(file.value);
    cid := ComputeRootHash(hashes);
    CidIs(file.value);
  }

  // ----- What an equal identifier means -----

  lemma {:induction false} ConcatLength(hashes: seq<string>)
    requires forall i :: 0 <= i < |hashes| ==> |hashes[i]| == 64
    ensures |Concat(hashes)| == 64 * |hashes|
  {
    if hashes != [] {
      ConcatLength(hashes[..|hashes| - 1]);
    }
  }

  /** Lists of digests are determined by their concatenation, thanks to the fixed width. */
  lemma {:induction false} ConcatInjective(a: seq<string>, b: seq<string>)
    requires forall i :: 0 <= i < |a| ==> |a[i]| == 64
    requires forall i :: 0 <= i < |b| ==> |b[i]| == 64
    requires Concat(a) == Concat(b)
    ensures a == b
  {
    ConcatLength(a);
    ConcatLength(b);
    if a != [] {
      var n := |a| - 1;
      ConcatLength(a[..n]);
      ConcatLength(b[..n]);
      assert Concat(a) == Concat(a[..n]) + a[n];
      assert Concat(b) == Concat(b[..n]) + b[n];
      assert Concat(a)[..64 * n] == Concat(a[..n]);
      assert Concat(b)[..64 * n] == Concat(b[..n]);
      assert Concat(a)[64 * n..] == a[n];
      assert Concat(b)[64 * n..] == b[n];
      ConcatInjective(a[..n], b[..n]);
      assert a == a[..n] + [a[n]] && b == b[..n] + [b[n]];
    }
  }

  predicate Narrow(text: string) {
    forall c :: c in text ==> c as int < 256
  }

  lemma SameCharacter(c: char, d: char)
    requires c as int < 256 && d as int < 256 && c as int % 256 == d as int % 256
    ensures c == d
  {
  }

  lemma BytesInjective(a: string, b: string)
    requires Narrow(a) && Narrow(b) && Bytes(a) == Bytes(b)
    ensures a == b
  {
    assert |a| == |b|;
    assert forall i :: 0 <= i < |a| ==> Bytes(a)[i] == Bytes(b)[i];
    hide Bytes;
    forall i | 0 <= i < |a|
      ensures a[i] == b[i]
    {
      assert a[i] in a && b[i] in b;
      SameCharacter(a[i], b[i]);
    }
  }

  lemma {:induction false} ConcatNarrow(hashes: seq<string>)
    requires forall i :: 0 <= i < |hashes| ==> IsHex(hashes[i])
    ensures Narrow(Concat(hashes))
  {
    if hashes != [] {
      ConcatNarrow(hashes[..|hashes| - 1]);
    }
  }

  /** The digests of a file's pieces have the shape of digests. */
  lemma FileHashesShape(file: seq<Byte>)
    ensures forall i :: 0 <= i < |FileHashes(file)| ==> |FileHashes(file)[i]| == 64 && IsHex(FileHashes(file)[i])
  {
    hide Digest, IsHex;
    forall i | 0 <= i < |FileHashes(file)|
      ensures |FileHashes(file)[i]| == 64 && IsHex(FileHashes(file)[i])
    {
      DigestShape(Piece(file, i));
      PieceHashAt(file, PieceCount(|file|), i);
    }
  }

  lemma {:induction false} SamePiecesUpTo(f: seq<Byte>, g: seq<Byte>, n: nat)
    requires forall i: nat :: i < n ==> Piece(f, i) == Piece(g, i)
    ensures f[..Cut(|f|, n)] == g[..Cut(|g|, n)]
  {
    if n > 0 {
      SamePiecesUpTo(f, g, n - 1);
      hide Cut, Piece;
      OneMorePiece(f, n - 1);
      OneMorePiece(g, n - 1);
    }
  }

  /** Files with the same pieces are the same. */
  lemma SamePieces(f: seq<Byte>, g: seq<Byte>)
    requires PieceCount(|f|) == PieceCount(|g|)
    requires forall i: nat :: i < PieceCount(|f|) ==> Piece(f, i) == Piece(g, i)
    ensures f == g
  {
    var n := PieceCount(|f|);
    SamePiecesUpTo(f, g, n);
    CutGrows(|f|, n);
    CutGrows(|g|, n);
    assert f[..|f|] == f && g[..|g|] == g;
  }

  /** Files with the same chunk hashes are the same, or two of their pieces collide. */
  lemma SameHashes(f: seq<Byte>, g: seq<Byte>) returns (i: nat)
    requires FileHashes(f) == FileHashes(g) && f != g
    ensures i < PieceCount(|f|) && Collision(Piece(f, i), Piece(g, i))
  {
    hide Digest, Piece, PieceCount, PieceHashes;
    assert |FileHashes(f)| == PieceCount(|f|) == PieceCount(|g|);
    if forall j: nat :: j < PieceCount(|f|) ==> Piece(f, j) == Piece(g, j) {
      SamePieces(f, g);
    } else {
      i :| i < PieceCount(|f|) && Piece(f, i) != Piece(g, i);
      PieceHashAt(f, PieceCount(|f|), i);
      PieceHashAt(g, PieceCount(|g|), i);
    }
  }

  lemma SameRoot(f: seq<Byte>, g: seq<Byte>)
    requires Bytes(Concat(FileHashes(f))) == Bytes(Concat(FileHashes(g)))
    ensures FileHashes(f) == FileHashes(g)
  {
    FileHashesShape(f);
    FileHashesShape(g);
    hide FileHashes, Digest;
    ConcatNarrow(FileHashes(f));
    ConcatNarrow(FileHashes(g));
    BytesInjective(Concat(FileHashes(f)), Concat(FileHashes(g)));
    ConcatInjective(FileHashes(f), FileHashes(g));
  }

  /** Two readable files with one identifier are equal, or they contain a SHA-256 collision: two of
      their chunks, or their two lists of digests. */
  lemma EqualCids(f: seq<Byte>, g: seq<Byte>) returns (x: seq<Byte>, y: seq<Byte>)
    requires Cid(Some(f)) == Cid(Some(g)) && f != g
    ensures Collision(x, y)
    ensures (exists i: nat :: i < PieceCount(|f|) && x == Piece(f, i) && y == Piece(g, i)) ||
            (x == Bytes(Concat(FileHashes(f))) && y == Bytes(Concat(FileHashes(g))))
  {
    NonEmptyTogether(f, g);
    CidRoots(f, g);
    hide Digest, Piece, PieceCount, FileHashes, Concat, Bytes, Cid;
    x, y := Bytes(Concat(FileHashes(f))), Bytes(Concat(FileHashes(g)));
    if x == y {
      SameRoot(f, g);
      var i := SameHashes(f, g);
      x, y := Piece(f, i), Piece(g, i);
    }
  }

  lemma CidRoots(f: seq<Byte>, g: seq<Byte>)
    requires Cid(Some(f)) == Cid(Some(g)) && f != [] && g != []
    ensures RootHash(FileHashes(f)) == RootHash(FileHashes(g))
  {
    hide RootHash, FileHashes;
  }

  lemma NonEmptyTogether(f: seq<Byte>, g: seq<Byte>)
    requires Cid(Some(f)) == Cid(Some(g)) && f != g
    ensures f != [] && g != []
  {
    DigestShape(Bytes(Concat(FileHashes(f))));
    DigestShape(Bytes(Concat(FileHashes(g))));
    hide Digest, FileHashes, Concat, Bytes;
  }
}
