/**
 Customization files are published in chunks (src/guicustomizations.cpp). A chunk is a byte
 range remembered with the size the file had; its bytes are read from the file later.
 */
module Chunks {
  import opened Wrappers

  newtype Byte = x: int | 0 <= x < 256

  datatype Chunk = Chunk(path: string, fullSize: nat, offset: nat, size: nat)

  datatype Error = NoFile | TooLarge | Changed | ShortRead

  const CHUNK: nat := 4096
  const MAX_READ: nat := 1024 * 1024 * 10

  function Ceil(n: nat): nat {
    (n + CHUNK - 1) / CHUNK
  }

  /** The chunks of a file: contiguous from 0, all of full size but perhaps the last. */
  predicate IsChunking(path: string, total: nat, chunks: seq<Chunk>) {
    && |chunks| == Ceil(total)
    && forall i | 0 <= i < |chunks| ::
         && chunks[i].path == path && chunks[i].fullSize == total
         && chunks[i].offset == CHUNK * i
         && 1 <= chunks[i].size <= CHUNK
         && (if i < |chunks| - 1 then chunks[i].size == CHUNK else chunks[i].offset + chunks[i].size == total)
  }

  /** `size` is None when there is no regular file. */
  method CalculateChunks(path: string, fileSize: Option<nat>) returns (r: Result<seq<Chunk>, Error>)
    ensures fileSize == None ==> r == Failure(NoFile)
    ensures fileSize.Some? ==> r.Success? && IsChunking(path, fileSize.value, r.value)
  {
    if fileSize == None {
      return Failure(NoFile);
    }
    var total, pos := fileSize.value, 0;
    var result: seq<Chunk> := [];
    while pos < total
      invariant 0 <= pos <= total
      invariant pos < total ==> pos == CHUNK * |result|
      invariant pos == total ==> |result| == Ceil(total)
      invariant forall i | 0 <= i < |result| ::
        && result[i].path == path && result[i].fullSize == total && result[i].offset == CHUNK * i
        && 1 <= result[i].size <= CHUNK
        && (if i < |result| - 1 then result[i].size == CHUNK else result[i].offset + result[i].size == pos)
    {
      var left := total - pos;
      var size := if left < CHUNK then left else CHUNK;
      result := result + [Chunk(path, total, pos, size)];
      pos := pos + size;
    }
    r := Success(result);
  }

  /** The size of the file and its bytes, as found when the chunk is read. */
  datatype Disk = Disk(size: nat, bytes: seq<Byte>)

  /** The bytes of a chunk, before they are encoded. */
  function ReadChunk(c: Chunk, disk: Disk): Result<seq<Byte>, Error> {
    if c.size > MAX_READ then Failure(TooLarge)
    else if disk.size != c.fullSize then Failure(Changed)
    else
      var from := Least(c.offset, |disk.bytes|);
      var got := disk.bytes[from..Least(from + c.size, |disk.bytes|)];
      if |got| != c.size then Failure(ShortRead) else Success(got)
  }

  /** What the first n chunks read, put together. */
  function ReadBack(chunks: seq<Chunk>, disk: Disk, n: nat): Result<seq<Byte>, Error>
    requires n <= |chunks|
  {
    if n == 0 then Success([])
    else
      match ReadBack(chunks, disk, n - 1)
      case Failure(e) => Failure(e)
      case Success(before) =>
        match ReadChunk(chunks[n - 1], disk)
        case Failure(e) => Failure(e)
        case Success(got) => Success(before + got)
  }

  /** Where the first n chunks end. */
  function EndOf(chunks: seq<Chunk>, n: nat): nat
    requires n <= |chunks|
  {
    if n == 0 then 0 else chunks[n - 1].offset + chunks[n - 1].size
  }

  /** Reading n chunks succeeds exactly when the size is unchanged and the bytes are there; it gives those bytes. */
  lemma {:induction false} ReadsBackExactly(path: string, total: nat, chunks: seq<Chunk>, disk: Disk, n: nat)
    requires IsChunking(path, total, chunks) && n <= |chunks|
    ensures n > 0 ==> (ReadBack(chunks, disk, n).Success? <==> disk.size == total && EndOf(chunks, n) <= |disk.bytes|)
    ensures ReadBack(chunks, disk, n).Success? && n > 0 ==> ReadBack(chunks, disk, n).value == disk.bytes[..EndOf(chunks, n)]
    decreases n
  {
    if n > 0 {
      ReadsBackExactly(path, total, chunks, disk, n - 1);
      var c := chunks[n - 1];
      assert EndOf(chunks, n - 1) == c.offset;
      if disk.size == total && c.offset + c.size <= |disk.bytes| {
        assert disk.bytes[..c.offset] + disk.bytes[c.offset..c.offset + c.size] == disk.bytes[..c.offset + c.size];
      }
    }
  }

  lemma EndOfAll(path: string, total: nat, chunks: seq<Chunk>)
    requires IsChunking(path, total, chunks)
    ensures EndOf(chunks, |chunks|) == total
  {}

  /** Main result: read back in order, the chunks of an unchanged file are the file. */
  lemma ChunksAreTheFile(path: string, chunks: seq<Chunk>, file: seq<Byte>)
    requires IsChunking(path, |file|, chunks)
    ensures ReadBack(chunks, Disk(|file|, file), |chunks|) == Success(file)
  {
    ReadsBackExactly(path, |file|, chunks, Disk(|file|, file), |chunks|);
    EndOfAll(path, |file|, chunks);
    assert file[..|file|] == file;
  }

  /** Every byte is in exactly one chunk. */
  lemma ByteIsInOneChunk(path: string, total: nat, chunks: seq<Chunk>, j: nat, i: nat)
    requires IsChunking(path, total, chunks) && j < total && i < |chunks|
    ensures chunks[i].offset <= j < chunks[i].offset + chunks[i].size <==> i == j / 4096
    ensures j / 4096 < |chunks|
  {}

  /** A chunking is determined by the file's path and size. */
  lemma ChunkingIsUnique(path: string, total: nat, a: seq<Chunk>, b: seq<Chunk>)
    requires IsChunking(path, total, a) && IsChunking(path, total, b)
    ensures a == b
  {}
}
