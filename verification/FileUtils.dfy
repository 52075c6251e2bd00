/** Splitting a file into chunks of one megabyte, and putting chunks together again. A file is a
    string of bytes; None is a file that cannot be opened or created. */
module FileUtils {
  import opened Common
  import opened Sorting
  import opened Words

  const CHUNK_SIZE: int := 1048576

  datatype Chunk = Chunk(index: int, hash: string, data: seq<Byte>, size: int)

  // ----- What a file's chunks are -----

  function PieceCount(len: nat): (n: nat)
    ensures (n - 1) * CHUNK_SIZE < len <= n * CHUNK_SIZE || len == n == 0
  {
    (len + CHUNK_SIZE - 1) / CHUNK_SIZE
  }

  /** Where piece i starts, and the end of the file for every i from the last one on. */
  function Cut(len: nat, i: nat): (pos: nat)
    ensures pos <= len
  {
    if i * CHUNK_SIZE < len then i * CHUNK_SIZE else len
  }

  lemma CutGrows(len: nat, i: nat)
    ensures Cut(len, i) <= Cut(len, i + 1)
    ensures i < PieceCount(len) ==> Cut(len, i) < Cut(len, i + 1)
    ensures i + 1 < PieceCount(len) ==> Cut(len, i + 1) == Cut(len, i) + CHUNK_SIZE
    ensures Cut(len, i + 1) <= Cut(len, i) + CHUNK_SIZE
    ensures i >= PieceCount(len) ==> Cut(len, i) == len
  {
  }

  function Piece(file: seq<Byte>, i: nat): seq<Byte> {
    CutGrows(|file|, i);
    file[Cut(|file|, i)..Cut(|file|, i + 1)]
  }

  /** In numbers: pieces of 1048576 bytes each, but for what is left at the end. */
  lemma PieceIs(file: seq<Byte>, i: nat)
    ensures PieceCount(|file|) == (|file| + 1048575) / 1048576
    ensures i < PieceCount(|file|) ==>
              && 1048576 * i < |file|
              && Piece(file, i) == file[1048576 * i..if 1048576 * (i + 1) < |file| then 1048576 * (i + 1) else |file|]
  {
    CutGrows(|file|, i);
  }

  lemma OneMorePiece(file: seq<Byte>, i: nat)
    ensures file[..Cut(|file|, i)] + Piece(file, i) == file[..Cut(|file|, i + 1)]
  {
    CutGrows(|file|, i);
    hide Cut;
  }

  function Pieces(file: seq<Byte>, n: nat): (chunks: seq<Chunk>)
    ensures |chunks| == n
  {
    if n == 0 then [] else Pieces(file, n - 1) + [Chunk(n - 1, "", Piece(file, n - 1), |Piece(file, n - 1)|)]
  }

  function Chunks(file: seq<Byte>): seq<Chunk> {
    Pieces(file, PieceCount(|file|))
  }

  lemma {:induction false} PiecesAt(file: seq<Byte>, n: nat, i: nat)
    requires i < n
    ensures Pieces(file, n)[i] == Chunk(i, "", Piece(file, i), |Piece(file, i)|)
  {
    if i < n - 1 {
      PiecesAt(file, n - 1, i);
    }
  }

  /** Chunks are not empty, and all but the last are full. */
  lemma ChunkShape(file: seq<Byte>, i: nat)
    requires i < PieceCount(|file|)
    ensures |Chunks(file)| == PieceCount(|file|) && Chunks(file)[i].index == i
    ensures 0 < |Chunks(file)[i].data| == Chunks(file)[i].size <= CHUNK_SIZE
    ensures i + 1 < PieceCount(|file|) ==> Chunks(file)[i].size == CHUNK_SIZE
  {
    PiecesAt(file, PieceCount(|file|), i);
    CutGrows(|file|, i);
  }

  /** Chunk i of a file, in numbers: the bytes from i megabytes on, one megabyte or what is left. */
  predicate IsChunk(c: Chunk, file: seq<Byte>, i: nat) {
    && 1048576 * i < |file|
    && c.data == file[1048576 * i..if 1048576 * (i + 1) < |file| then 1048576 * (i + 1) else |file|]
    && c.index == i && c.hash == "" && c.size == |c.data|
  }

  // ----- Splitting -----

  /** What one read from position pos on delivers. */
  function BytesRead(len: nat, pos: nat): (n: nat)
    requires pos <= len
    ensures n <= CHUNK_SIZE && pos + n <= len && (n < CHUNK_SIZE ==> pos + n == len)
  {
    if len - pos < CHUNK_SIZE then len - pos else CHUNK_SIZE
  }

  lemma ReadIsPiece(len: nat, index: nat, pos: nat)
    requires pos == Cut(len, index)
    ensures pos + BytesRead(len, pos) == Cut(len, index + 1)
    ensures index < PieceCount(len) <==> BytesRead(len, pos) > 0
  {
    CutGrows(len, index);
  }

  /** The read loop: an unreadable file and an empty one have no chunks. */
  method SplitFileIntoChunks(file: Option<seq<Byte>>) returns (chunks: seq<Chunk>)
    ensures chunks == if file.None? then [] else Chunks(file.value)
    ensures file.Some? ==> |chunks| == (|file.value| + 1048575) / 1048576
    ensures file.Some? ==> forall i: nat :: i < |chunks| ==> IsChunk(chunks[i], file.value, i)
  {
    chunks := [];
    if file.None? {
      return;
    }
    var bytes := file.value;
    var index, pos := 0, 0;
    var gcount := BytesRead(|bytes|, pos);
    while gcount == CHUNK_SIZE || gcount > 0
      invariant 0 <= index <= PieceCount(|bytes|) && pos == Cut(|bytes|, index) && gcount == BytesRead(|bytes|, pos)
      invariant chunks == Pieces(bytes, index)
      decreases |bytes| - pos
    {
      ReadIsPiece(|bytes|, index, pos);
      if gcount > 0 {
        chunks := chunks + [Chunk(index, "", bytes[pos..pos + gcount], gcount)];
        index := index + 1;
      }
      pos := pos + gcount;
      gcount := BytesRead(|bytes|, pos);
    }
    ReadIsPiece(|bytes|, index, pos);
    ChunksAre(bytes);
  }

  /** The chunks in numbers. */
  lemma ChunksAre(file: seq<Byte>)
    ensures |Chunks(file)| == (|file| + 1048575) / 1048576
    ensures forall i: nat :: i < |Chunks(file)| ==> IsChunk(Chunks(file)[i], file, i)
  {
    PieceIs(file, 0);
    forall i: nat | i < |Chunks(file)|
      ensures IsChunk(Chunks(file)[i], file, i)
    {
      PieceIs(file, i);
      PiecesAt(file, PieceCount(|file|), i);
    }
  }

  // ----- Putting together -----

  function Indices(chunks: seq<Chunk>): (ids: seq<int>)
    ensures |ids| == |chunks| && forall i :: 0 <= i < |ids| ==> ids[i] == chunks[i].index
  {
    if chunks == [] then [] else Indices(chunks[..|chunks| - 1]) + [chunks[|chunks| - 1].index]
  }

  function UpTo(n: nat): (ids: seq<int>)
    ensures |ids| == n && forall i :: 0 <= i < n ==> ids[i] == i
  {
    if n == 0 then [] else UpTo(n - 1) + [n - 1]
  }

  /** The indices of the chunks are 0 to n - 1, each once, in some order. */
  ghost predicate Complete(chunks: seq<Chunk>) {
    Permutes(Indices(chunks), UpTo(|chunks|))
  }

  ghost predicate InOrder(chunks: seq<Chunk>) {
    forall i: nat :: i < |chunks| ==> chunks[i].index == i
  }

  function IndexOf(c: Chunk): int {
    c.index
  }

  ghost predicate Sorted(chunks: seq<Chunk>) {
    OrderedBy(chunks, IndexOf)
  }

  /** The caller's promise about a chunk: it has as many bytes as its size says. */
  predicate Sound(c: Chunk) {
    0 <= c.size <= |c.data|
  }

  function Content(c: Chunk): seq<Byte>
    requires Sound(c)
  {
    c.data[..c.size]
  }

  function Joined(chunks: seq<Chunk>): seq<Byte>
    requires forall c :: c in chunks ==> Sound(c)
  {
    if chunks == [] then [] else Joined(chunks[..|chunks| - 1]) + Content(chunks[|chunks| - 1])
  }

  /** Where the chunk at place i starts: after all the bytes before it. */
  function Offset(chunks: seq<Chunk>, i: nat): nat
    requires i <= |chunks| && forall c :: c in chunks ==> Sound(c)
  {
    if i == 0 then 0 else assert chunks[i - 1] in chunks; Offset(chunks, i - 1) + chunks[i - 1].size
  }

  lemma {:induction false} OffsetOf(front: seq<Chunk>, chunks: seq<Chunk>, i: nat)
    requires i <= |front| <= |chunks| && front == chunks[..|front|] && forall c :: c in chunks ==> Sound(c)
    ensures (forall c :: c in front ==> Sound(c)) && Offset(front, i) == Offset(chunks, i)
  {
    assert forall c :: c in front ==> c in chunks;
    if i > 0 {
      OffsetOf(front, chunks, i - 1);
    }
  }

  /** The valid bytes of every chunk stand one after the other, and there is nothing else. */
  lemma {:induction false} JoinedAt(chunks: seq<Chunk>, i: nat)
    requires i < |chunks| && forall c :: c in chunks ==> Sound(c)
    ensures chunks[i] in chunks && |Joined(chunks)| == Offset(chunks, |chunks|)
    ensures Offset(chunks, i) + chunks[i].size <= |Joined(chunks)|
    ensures Joined(chunks)[Offset(chunks, i)..Offset(chunks, i) + chunks[i].size] == chunks[i].data[..chunks[i].size]
    decreases |chunks|
  {
    var n := |chunks| - 1;
    var front := chunks[..n];
    OffsetOf(front, chunks, n);
    assert chunks[n] in chunks;
    assert Joined(chunks) == Joined(front) + chunks[n].data[..chunks[n].size];
    if n > 0 {
      var k := if i < n then i else 0;
      JoinedAt(front, k);
      OffsetOf(front, chunks, k);
      assert front[k] == chunks[k];
    }
    hide Joined, Offset;
  }

  lemma IndicesWithout(a: seq<Chunk>, ids: seq<int>, i: nat)
    requires |ids| == |a| && (forall k :: 0 <= k < |a| ==> ids[k] == a[k].index) && i < |a|
    ensures Indices(a[..i] + a[i + 1..]) == ids[..i] + ids[i + 1..]
  {
    hide Indices;
  }

  lemma IndexAt(a: seq<Chunk>, i: nat)
    requires i < |a|
    ensures multiset(Indices(a)) == multiset(Indices(a[..i] + a[i + 1..])) + multiset{a[i].index}
  {
    hide Indices;
    DropAt(Indices(a), i);
    IndicesWithout(a, Indices(a), i);
  }

  lemma LastMovedTo<T>(a: seq<T>, b: seq<T>) returns (i: nat)
    requires Permutes(a, b) && a != []
    ensures i < |b| && b[i] == a[|a| - 1] && Permutes(a[..|a| - 1], b[..i] + b[i + 1..])
  {
    var last := a[|a| - 1];
    SplitLast(a);
    assert last in multiset(b);
    i :| i < |b| && b[i] == last;
    DropAt(b, i);
    Cancel(multiset(a[..|a| - 1]), multiset(b[..i] + b[i + 1..]), last);
  }

  /** Permuting the chunks permutes their indices. */
  lemma {:induction false} IndicesPermute(a: seq<Chunk>, b: seq<Chunk>)
    requires Permutes(a, b)
    ensures Permutes(Indices(a), Indices(b))
    decreases |a|
  {
    SameElements(a, b);
    if a != [] {
      var i := LastMovedTo(a, b);
      IndicesPermute(a[..|a| - 1], b[..i] + b[i + 1..]);
      hide Indices;
      IndexAt(a, |a| - 1);
      IndexAt(b, i);
      assert a[..|a| - 1] + a[|a|..] == a[..|a| - 1];
    }
  }

  lemma LastIndex(ids: seq<int>)
    requires ids != [] && Permutes(ids, UpTo(|ids|)) && forall i: nat, j: nat :: i < j < |ids| ==> ids[i] <= ids[j]
    ensures ids[|ids| - 1] == |ids| - 1
  {
    hide UpTo, Permutes;
    var n := |ids|;
    SameElements(ids, UpTo(n));
    assert ids[n - 1] in UpTo(n) && UpTo(n)[n - 1] in ids;
  }

  lemma {:induction false} SortedIndicesAreUpTo(ids: seq<int>)
    requires Permutes(ids, UpTo(|ids|)) && forall i: nat, j: nat :: i < j < |ids| ==> ids[i] <= ids[j]
    ensures ids == UpTo(|ids|)
    decreases |ids|
  {
    hide UpTo;
    if ids != [] {
      var n := |ids| - 1;
      LastIndex(ids);
      SplitLast(ids);
      SplitLast(UpTo(n + 1));
      Cancel(multiset(ids[..n]), multiset(UpTo(n + 1)[..n]), n);
      assert UpTo(n + 1)[..n] == UpTo(n);
      SortedIndicesAreUpTo(ids[..n]);
      assert ids == ids[..n] + [n];
    }
  }

  /** The program's test on a sorted list passes exactly when no chunk is missing or doubled. */
  lemma CheckIsComplete(chunks: seq<Chunk>, sorted: seq<Chunk>)
    requires Permutes(sorted, chunks) && Sorted(sorted)
    ensures |sorted| == |chunks|
    ensures InOrder(sorted) <==> Complete(chunks)
  {
    SameElements(sorted, chunks);
    IndicesPermute(sorted, chunks);
    hide Indices, UpTo, Permutes;
    SamePermutation(Indices(sorted), Indices(chunks), UpTo(|chunks|));
    if Complete(chunks) {
      SortedIndicesAreUpTo(Indices(sorted));
    }
    if InOrder(sorted) {
      assert Indices(sorted) == UpTo(|sorted|);
    }
  }

  lemma SamePermutation<T>(a: seq<T>, b: seq<T>, c: seq<T>)
    requires Permutes(a, b)
    ensures Permutes(b, c) ==> Permutes(a, c)
    ensures a == c ==> Permutes(b, c)
  {
  }

  lemma OneArrangement(a: seq<Chunk>, b: seq<Chunk>)
    requires Permutes(a, b) && InOrder(a) && InOrder(b)
    ensures a == b
  {
    SameElements(a, b);
    forall i: nat | i < |a|
      ensures a[i] == b[i]
    {
      assert a[i] in b;
    }
  }

  /** The bytes of the chunks by index, if no chunk is missing or doubled. */
  ghost predicate Reconstructs(chunks: seq<Chunk>, file: seq<Byte>)
    requires forall c :: c in chunks ==> Sound(c)
  {
    exists sorted: seq<Chunk> ::
      && Permutes(sorted, chunks) && InOrder(sorted)
      && (forall c :: c in sorted ==> Sound(c)) && file == Joined(sorted)
  }

  /** The file is written exactly when there are chunks, the file can be created and every index
      occurs once; then it holds the chunks' bytes in index order. */
  method ReconstructFile(chunks: seq<Chunk>, creatable: bool) returns (out: Option<seq<Byte>>)
    requires forall c :: c in chunks ==> Sound(c)
    ensures out.Some? <==> chunks != [] && Complete(chunks) && creatable
    ensures out.Some? ==> Reconstructs(chunks, out.value)
  {
    if chunks == [] {
      return None;
    }
    var sorted := SortBy(chunks, IndexOf);
    SameElements(sorted, chunks);
    CheckIsComplete(chunks, sorted);
    for i := 0 to |sorted|
      invariant forall j: nat :: j < i ==> sorted[j].index == j
    {
      if sorted[i].index != i {
        return None;
      }
    }
    if !creatable {
      return None;
    }
    var written := [];
    for i := 0 to |sorted|
      invariant written == Joined(sorted[..i])
    {
      assert sorted[..i + 1][..i] == sorted[..i];
      written := written + Content(sorted[i]);
    }
    assert sorted[..|sorted|] == sorted;
    out := Some(written);
  }

  /** There is at most one file that a set of chunks reconstructs. */
  lemma ReconstructionIsUnique(chunks: seq<Chunk>, f: seq<Byte>, g: seq<Byte>)
    requires forall c :: c in chunks ==> Sound(c)
    requires Reconstructs(chunks, f) && Reconstructs(chunks, g)
    ensures f == g
  {
    var a: seq<Chunk> :| Permutes(a, chunks) && InOrder(a) && (forall c :: c in a ==> Sound(c)) && f == Joined(a);
    var b: seq<Chunk> :| Permutes(b, chunks) && InOrder(b) && (forall c :: c in b ==> Sound(c)) && g == Joined(b);
    OneArrangement(a, b);
  }

  // ----- The round trip -----

  /** The chunk carries the piece of the file that its index names. */
  ghost predicate Carries(c: Chunk, file: seq<Byte>) {
    Sound(c) && c.index >= 0 && Content(c) == Piece(file, c.index)
  }

  lemma {:induction false} JoinedPieces(chunks: seq<Chunk>, file: seq<Byte>, n: nat)
    requires n <= |chunks| && InOrder(chunks) && forall c :: c in chunks ==> Carries(c, file)
    ensures forall c :: c in chunks[..n] ==> Sound(c)
    ensures Joined(chunks[..n]) == file[..Cut(|file|, n)]
  {
    if n > 0 {
      JoinedPieces(chunks, file, n - 1);
      assert chunks[..n][..n - 1] == chunks[..n - 1];
      assert Carries(chunks[n - 1], file);
      OneMorePiece(file, n - 1);
    }
  }

  /** Chunks that carry the pieces of a file, each once and in any order, reconstruct it. */
  lemma CarriedFileIsReconstructed(chunks: seq<Chunk>, file: seq<Byte>)
    requires file != [] && |chunks| == PieceCount(|file|) && Complete(chunks)
    requires forall c :: c in chunks ==> Carries(c, file)
    ensures chunks != [] && (forall c :: c in chunks ==> Sound(c)) && Reconstructs(chunks, file)
  {
    var sorted := OrderExists(chunks, IndexOf);
    SameElements(sorted, chunks);
    CheckIsComplete(chunks, sorted);
    JoinedPieces(sorted, file, |sorted|);
    assert sorted[..|sorted|] == sorted;
    CutGrows(|file|, |sorted|);
    assert file[..|file|] == file;
  }

  lemma ChunksCarry(file: seq<Byte>)
    ensures InOrder(Chunks(file)) && forall c :: c in Chunks(file) ==> Carries(c, file)
  {
    forall i: nat | i < |Chunks(file)|
      ensures Chunks(file)[i].index == i && Carries(Chunks(file)[i], file)
    {
      PiecesAt(file, PieceCount(|file|), i);
    }
  }

  /** Any permutation of a non-empty file's chunks reconstructs the file and nothing else. */
  lemma SplitThenReconstruct(file: seq<Byte>, chunks: seq<Chunk>)
    requires file != [] && Permutes(chunks, Chunks(file))
    ensures forall c :: c in chunks ==> Sound(c)
    ensures chunks != [] && Complete(chunks)
    ensures forall out :: Reconstructs(chunks, out) <==> out == file
  {
    var all := Chunks(file);
    ChunksCarry(file);
    SameElements(chunks, all);
    assert Indices(all) == UpTo(|all|);
    IndicesPermute(chunks, all);
    CarriedFileIsReconstructed(chunks, file);
    forall out | Reconstructs(chunks, out)
      ensures out == file
    {
      ReconstructionIsUnique(chunks, out, file);
    }
  }
}
