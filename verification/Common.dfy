/** Types shared by the layers of the file store. */
module Common {

  datatype Option<+T> = None | Some(value: T) {
    predicate IsFailure() { None? }

    function PropagateFailure<U>(): Option<U>
      requires None?
    {
      None
    }

    function Extract(): T
      requires Some?
    {
      value
    }
  }

  /** What a metadata node keeps about one uploaded file. */
  datatype FileMetadata = FileMetadata(
    filename: string,
    fileSize: int,
    chunkSize: int,
    totalChunks: int,
    rootHash: string,
    chunkHashes: seq<string>)

  /** A metadata node's table, from file name to metadata. */
  type Table = map<string, FileMetadata>
}
