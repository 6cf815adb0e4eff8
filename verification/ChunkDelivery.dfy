/** Chunked delivery of game.pck: the server slices the file, the page's loader fetches every chunk
    the manifest advertises and merges the bodies. */
module ChunkDelivery {
  import opened Arithmetic
  import opened Options
  import opened Bytes

  /** Python's // for a positive divisor. */
  function FloorDiv(a: int, b: int): int
    requires b > 0
  {
    a / b
  }

  /** None is a build without game.pck. */
  function CountChunks(pck: Option<seq<byte>>, chunkSize: int): int
    requires chunkSize > 0
  {
    match pck
    case None => 0
    case Some(file) => -FloorDiv(-|file|, chunkSize)
  }

  /** Raised is what seeking to a negative offset raises. A 206 also says which bytes it carries. */
  datatype Response =
    | Partial(body: seq<byte>, first: int, last: int, size: nat)
    | Unsatisfiable
    | NotFound(body: seq<byte>)
    | Raised

  function Min(a: int, b: int): int {
    if a <= b then a else b
  }

  /** f.seek(start); f.read(length), where a negative length reads on to the end. */
  function ReadAt(file: seq<byte>, start: nat, length: int): seq<byte>
    requires start < |file|
  {
    if length < 0 || start + length > |file| then file[start..] else file[start..start + length]
  }

  function ServeChunk(file: seq<byte>, n: int, chunkSize: int): Response {
    var start := n * chunkSize;
    var end := Min(start + chunkSize, |file|);
    if start >= |file| then Unsatisfiable
    else if start < 0 then Raised
    else Partial(ReadAt(file, start, end - start), start, end - 1, |file|)
  }

  /** The chunk route; what the 404 says is a parameter. */
  function HandleChunk(pck: Option<seq<byte>>, n: nat, chunkSize: int, notFound: seq<byte>): Response {
    match pck
    case None => NotFound(notFound)
    case Some(file) => ServeChunk(file, n, chunkSize)
  }

  /** What the loader takes from a response, whatever its status. */
  function Body(r: Response): seq<byte> {
    match r
    case Partial(body, _, _, _) => body
    case NotFound(body) => body
    case Unsatisfiable => []
    case Raised => []
  }

  /** manifest.pck_chunks || 1 */
  function Fetches(advertised: int): nat {
    if advertised == 0 then 1 else if advertised < 0 then 0 else advertised
  }

  function Bodies(pck: Option<seq<byte>>, chunkSize: int, count: nat, notFound: seq<byte>): seq<seq<byte>> {
    seq(count, i requires 0 <= i < count => Body(HandleChunk(pck, i, chunkSize, notFound)))
  }

  function Concat(parts: seq<seq<byte>>): seq<byte> {
    if parts == [] then [] else Concat(parts[..|parts| - 1]) + parts[|parts| - 1]
  }

  /** What the page hands to the engine as its pck. */
  function Downloaded(pck: Option<seq<byte>>, chunkSize: int, advertised: int, notFound: seq<byte>): seq<byte> {
    Concat(Bodies(pck, chunkSize, Fetches(advertised), notFound))
  }

  // ---------- the ranges ----------

  /** The count is the least number of chunks that covers the file. */
  lemma CountCovers(file: seq<byte>, chunkSize: int)
    requires chunkSize > 0
    ensures var n := CountChunks(Some(file), chunkSize);
            n >= 0 && n * chunkSize >= |file| && (n > 0 ==> (n - 1) * chunkSize < |file|)
  {
    var q := FloorDiv(-|file|, chunkSize);
    assert -|file| == chunkSize * q + (-|file|) % chunkSize;
    if q >= 1 { MultiplesGrow(1, q, chunkSize); }
  }

  /** Below the count a chunk is a 206 with the bytes from n*size up to the next chunk or the end of
      the file, as its Content-Range says; from the count on every index answers 416 without a body. */
  lemma ChunkRange(file: seq<byte>, n: nat, chunkSize: int)
    requires chunkSize > 0
    ensures var r := ServeChunk(file, n, chunkSize);
            var start, end := n * chunkSize, Min((n + 1) * chunkSize, |file|);
            && (n < CountChunks(Some(file), chunkSize) <==> r.Partial?)
            && (n >= CountChunks(Some(file), chunkSize) <==> r == Unsatisfiable)
            && (r.Partial? ==>
                  && 0 <= start < end <= |file|
                  && r == Partial(file[start..end], start, end - 1, |file|))
  {
    var count := CountChunks(Some(file), chunkSize);
    CountCovers(file, chunkSize);
    if n < count {
      MultiplesGrow(n, count - 1, chunkSize);
    } else {
      MultiplesGrow(count, n, chunkSize);
    }
    NextMultiple(n, chunkSize);
  }

  /** With a chunk size of zero every chunk of a file is empty. With a negative one the first chunk is the
      whole file, and seeking to any other raises. An empty file has no chunk to offer. */
  lemma NonpositiveChunkSize(file: seq<byte>, n: nat, chunkSize: int)
    requires chunkSize <= 0
    ensures ServeChunk(file, n, chunkSize)
         == if n > 0 && chunkSize < 0 then Raised
            else if file == [] then Unsatisfiable
            else if chunkSize == 0 then Partial([], 0, -1, |file|)
            else Partial(file, 0, chunkSize - 1, |file|)
  {
    if n > 0 && chunkSize < 0 {
      MultipleIsFar(n, chunkSize);
    } else {
      assert n * chunkSize == 0;
    }
  }

  /** The chunk's Content-Range has byte k. */
  predicate InChunk(file: seq<byte>, chunkSize: int, n: nat, k: nat) {
    var r := ServeChunk(file, n, chunkSize);
    r.Partial? && r.first <= k <= r.last
  }

  lemma ChunkOfByte(file: seq<byte>, chunkSize: int, k: nat)
    requires chunkSize > 0 && k < |file|
    ensures k / chunkSize >= 0 && k / chunkSize < CountChunks(Some(file), chunkSize)
    ensures InChunk(file, chunkSize, k / chunkSize, k)
  {
    hide CountChunks;
    var n := k / chunkSize;
    assert k == chunkSize * n + k % chunkSize;
    NextMultiple(n, chunkSize);
    var count := CountChunks(Some(file), chunkSize);
    CountCovers(file, chunkSize);
    if n >= count { MultiplesGrow(count, n, chunkSize); }
    ChunkRange(file, n, chunkSize);
  }

  lemma OneChunkOnly(file: seq<byte>, chunkSize: int, i: nat, j: nat, k: nat)
    requires chunkSize > 0 && InChunk(file, chunkSize, i, k) && InChunk(file, chunkSize, j, k)
    ensures i == j
  {
    NextMultiple(i, chunkSize);
    NextMultiple(j, chunkSize);
    if i < j { MultiplesGrow(i + 1, j, chunkSize); }
    if j < i { MultiplesGrow(j + 1, i, chunkSize); }
  }

  /** Every byte is in exactly one chunk. */
  lemma ChunksPartition(file: seq<byte>, chunkSize: int, k: nat)
    requires chunkSize > 0 && k < |file|
    ensures exists n: nat :: n < CountChunks(Some(file), chunkSize) && InChunk(file, chunkSize, n, k)
    ensures forall m: nat, n: nat :: InChunk(file, chunkSize, m, k) && InChunk(file, chunkSize, n, k) ==> m == n
  {
    hide InChunk, CountChunks;
    ChunkOfByte(file, chunkSize, k);
    forall i: nat, j: nat | InChunk(file, chunkSize, i, k) && InChunk(file, chunkSize, j, k) ensures i == j {
      OneChunkOnly(file, chunkSize, i, j, k);
    }
  }

  // ---------- reassembly ----------

  lemma NextChunk(file: seq<byte>, chunkSize: int, n: nat)
    requires chunkSize > 0
    ensures 0 <= Min(n * chunkSize, |file|) <= Min((n + 1) * chunkSize, |file|)
    ensures file[..Min(n * chunkSize, |file|)] + Body(ServeChunk(file, n, chunkSize))
         == file[..Min((n + 1) * chunkSize, |file|)]
  {
    hide CountChunks, ServeChunk;
    ChunkRange(file, n, chunkSize);
    MultiplesGrow(n, n + 1, chunkSize);
    MultiplesGrow(0, n, chunkSize);
    CountCovers(file, chunkSize);
    if n >= CountChunks(Some(file), chunkSize) {
      MultiplesGrow(CountChunks(Some(file), chunkSize), n, chunkSize);
    }
  }

  /** The first count chunks put together are the first count * size bytes. */
  lemma {:induction false} ReassembledPrefix(file: seq<byte>, chunkSize: int, count: nat, notFound: seq<byte>)
    requires chunkSize > 0
    ensures 0 <= Min(count * chunkSize, |file|)
    ensures Concat(Bodies(Some(file), chunkSize, count, notFound)) == file[..Min(count * chunkSize, |file|)]
  {
    hide CountChunks, ServeChunk;
    if count > 0 {
      var all := Bodies(Some(file), chunkSize, count, notFound);
      var n := count - 1;
      ReassembledPrefix(file, chunkSize, n, notFound);
      assert all[..n] == Bodies(Some(file), chunkSize, n, notFound);
      NextChunk(file, chunkSize, n);
    }
  }

  /** Fetching what the manifest advertises gives back an existing game.pck byte for byte. */
  lemma DownloadIsFile(file: seq<byte>, chunkSize: int, notFound: seq<byte>)
    requires chunkSize > 0
    ensures Downloaded(Some(file), chunkSize, CountChunks(Some(file), chunkSize), notFound) == file
  {
    var count := CountChunks(Some(file), chunkSize);
    CountCovers(file, chunkSize);
    ReassembledPrefix(file, chunkSize, Fetches(count), notFound);
    if count == 0 { MultiplesGrow(0, 1, chunkSize); }
  }

  /** With a manifest scanned before the file changed, the download is whole exactly when the chunks
      advertised (or the one fetched anyway) are as many as the file now has. */
  lemma DownloadIsWholeIff(file: seq<byte>, chunkSize: int, advertised: int, notFound: seq<byte>)
    requires chunkSize > 0
    ensures Downloaded(Some(file), chunkSize, advertised, notFound) == file
            <==> (if advertised == 0 then 1 else if advertised < 0 then 0 else advertised)
                 >= CountChunks(Some(file), chunkSize)
  {
    var count, n := CountChunks(Some(file), chunkSize), Fetches(advertised);
    CountCovers(file, chunkSize);
    ReassembledPrefix(file, chunkSize, n, notFound);
    if n >= count {
      MultiplesGrow(count, n, chunkSize);
    } else {
      MultiplesGrow(n, count - 1, chunkSize);
      assert |file[..Min(n * chunkSize, |file|)]| < |file|;
    }
  }

  /** Without a game.pck the loader merges the body of the 404: it does not look at the status. */
  lemma MissingFileIsNotNoticed(chunkSize: int, notFound: seq<byte>)
    requires chunkSize > 0
    ensures CountChunks(None, chunkSize) == 0
    ensures Downloaded(None, chunkSize, CountChunks(None, chunkSize), notFound) == notFound
  {
    var bodies := Bodies(None, chunkSize, 1, notFound);
    assert bodies == [notFound];
    assert bodies[..0] == [];
    assert Concat(bodies[..0]) == [];
  }

  // ---------- the loader's merge ----------

  function TotalLength(parts: seq<seq<byte>>): nat {
    if parts == [] then 0 else TotalLength(parts[..|parts| - 1]) + |parts[|parts| - 1]|
  }

  lemma {:induction false} ConcatLength(parts: seq<seq<byte>>)
    ensures |Concat(parts)| == TotalLength(parts)
  {
    if parts != [] { ConcatLength(parts[..|parts| - 1]); }
  }

  lemma {:induction false} PrefixFits(parts: seq<seq<byte>>, i: nat)
    requires i <= |parts|
    ensures TotalLength(parts[..i]) <= TotalLength(parts)
    decreases |parts|
  {
    if i < |parts| {
      PrefixFits(parts[..|parts| - 1], i);
      assert parts[..|parts| - 1][..i] == parts[..i];
    } else {
      assert parts[..i] == parts;
    }
  }

  /** Uint8Array.set */
  method SetAt(a: array<byte>, part: seq<byte>, offset: nat)
    requires offset + |part| <= a.Length
    modifies a
    ensures a[..offset + |part|] == old(a[..offset]) + part
    ensures a[offset + |part|..] == old(a[offset + |part|..])
  {
    for j := 0 to |part|
      invariant a[..offset + j] == old(a[..offset]) + part[..j]
      invariant a[offset + j..] == old(a[offset + j..])
    {
      a[offset + j] := part[j];
      assert part[..j + 1] == part[..j] + [part[j]];
    }
    assert part[..|part|] == part;
  }

  method Merge(parts: seq<seq<byte>>) returns (merged: array<byte>)
    ensures fresh(merged) && merged[..] == Concat(parts)
  {
    var total := 0;
    for i := 0 to |parts|
      invariant total == TotalLength(parts[..i])
    {
      assert parts[..i + 1][..i] == parts[..i];
      total := total + |parts[i]|;
    }
    assert parts[..|parts|] == parts;
    merged := new byte[total](_ => 0);
    var offset := 0;
    for i := 0 to |parts|
      invariant offset == TotalLength(parts[..i]) <= merged.Length == TotalLength(parts)
      invariant merged[..offset] == Concat(parts[..i])
    {
      assert parts[..i + 1][..i] == parts[..i];
      PrefixFits(parts, i + 1);
      SetAt(merged, parts[i], offset);
      offset := offset + |parts[i]|;
    }
    assert merged[..] == merged[..offset];
  }
}
