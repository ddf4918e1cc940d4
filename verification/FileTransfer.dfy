/** core/file_transfer.py: splitting a file into chunks, the associated data
    that binds a chunk to its place, and reassembly. */
module FileTransfer {
  import opened Basics
  import opened Encoding
  import opened Framing

  const FILE_CHUNK_BYTES := 65536
  const FILE_MAX_BYTES := 50 * 1024 * 1024

  datatype Meta = Meta(fileId: string, filename: string, size: nat, sha256: string, totalChunks: nat, chunkBytes: nat)

  datatype FileError = ChunkBytesNotPositive | FileTooLarge | BadIndex | NoChunks | MissingChunks

  // ------------------------------------------------------------------ chunks

  /** How many chunks `make_file_meta` announces. */
  function TotalChunks(size: nat, chunkBytes: nat): nat
    requires chunkBytes > 0
  {
    if size == 0 then 1 else (size + chunkBytes - 1) / chunkBytes
  }

  /** Chunk i of the content: the i-th run of chunkBytes bytes. */
  function ChunkAt(content: bytes, chunkBytes: nat, i: nat): bytes
    requires chunkBytes > 0 && i < TotalChunks(|content|, chunkBytes)
  {
    ChunkBounds(|content|, chunkBytes, i);
    content[i * chunkBytes..Min((i + 1) * chunkBytes, |content|)]
  }

  lemma ChunkBounds(size: nat, chunkBytes: nat, i: nat)
    requires chunkBytes > 0 && i < TotalChunks(size, chunkBytes)
    ensures 0 <= i * chunkBytes <= size
    ensures i * chunkBytes <= (i + 1) * chunkBytes
    ensures i + 1 < TotalChunks(size, chunkBytes) ==> (i + 1) * chunkBytes < size
    ensures i + 1 == TotalChunks(size, chunkBytes) ==> size <= (i + 1) * chunkBytes
    ensures size > 0 ==> i * chunkBytes < size
  {
    assert (i + 1) * chunkBytes == i * chunkBytes + chunkBytes;
    if size > 0 {
      var t := TotalChunks(size, chunkBytes);
      var q := size + chunkBytes - 1;
      assert q == t * chunkBytes + q % chunkBytes;
      LeMul(i + 1, t, chunkBytes);
      if i + 1 < t { LeMul(i + 2, t, chunkBytes); assert (i + 2) * chunkBytes == (i + 1) * chunkBytes + chunkBytes; }
    }
  }

  lemma TotalIsPositive(size: nat, chunkBytes: nat)
    requires chunkBytes > 0
    ensures TotalChunks(size, chunkBytes) >= 1
    ensures size == 0 ==> TotalChunks(size, chunkBytes) == 1
  {
    if size > 0 {
      var q := size + chunkBytes - 1;
      assert q == q / chunkBytes * chunkBytes + q % chunkBytes;
    }
  }

  /** `make_file_meta`: the announced size, digest and chunk count, read block
      by block; refused for a non-positive chunk size or an oversized file. */
  method MakeFileMeta(content: bytes, chunkBytes: int, fileId: string, filename: string, digest: bytes -> string)
    returns (r: Result<Meta, FileError>)
    ensures chunkBytes <= 0 ==> r == Err(ChunkBytesNotPositive)
    ensures chunkBytes > 0 && |content| > FILE_MAX_BYTES ==> r == Err(FileTooLarge)
    ensures chunkBytes > 0 && |content| <= FILE_MAX_BYTES ==>
              r == Ok(MetaOf(content, chunkBytes, fileId, filename, digest))
    ensures r.Ok? ==>
              && r.value.size == |content| && r.value.sha256 == digest(content)
              && r.value.fileId == fileId && r.value.filename == filename && r.value.chunkBytes == chunkBytes
              && 1 <= r.value.totalChunks && |content| <= r.value.totalChunks * chunkBytes
              && (r.value.totalChunks > 1 ==> (r.value.totalChunks - 1) * chunkBytes < |content|)
  {
    if chunkBytes <= 0 {
      return Err(ChunkBytesNotPositive);
    }
    var size := |content|;
    if size > FILE_MAX_BYTES {
      return Err(FileTooLarge);
    }
    var hashed: bytes := [];
    while |hashed| < |content|
      invariant |hashed| <= |content| && hashed == content[..|hashed|]
    {
      var block := content[|hashed|..Min(|hashed| + 65536, |content|)];
      hashed := hashed + block;
    }
    assert hashed == content;
    var totalChunks := if size == 0 then 1 else (size + chunkBytes - 1) / chunkBytes;
    TotalIsPositive(size, chunkBytes);
    ChunkBounds(size, chunkBytes, totalChunks - 1);
    if totalChunks > 1 { ChunkBounds(size, chunkBytes, totalChunks - 2); }
    return Ok(Meta(fileId, filename, size, digest(hashed), totalChunks, chunkBytes));
  }

  function MetaOf(content: bytes, chunkBytes: nat, fileId: string, filename: string, digest: bytes -> string): Meta
    requires chunkBytes > 0
  {
    Meta(fileId, filename, |content|, digest(content), TotalChunks(|content|, chunkBytes), chunkBytes)
  }

  /** `iter_chunks`: read chunkBytes at a time until a read comes back empty;
      an empty file gives one empty chunk.  The number of chunks is the one
      announced, and chunk i is the i-th. */
  method IterChunks(content: bytes, chunkBytes: int) returns (r: Result<seq<bytes>, FileError>)
    ensures chunkBytes <= 0 ==> r == Err(ChunkBytesNotPositive)
    ensures chunkBytes > 0 ==>
              && r.Ok? && |r.value| == TotalChunks(|content|, chunkBytes)
              && forall i :: 0 <= i < |r.value| ==> r.value[i] == ChunkAt(content, chunkBytes, i)
  {
    if chunkBytes <= 0 {
      return Err(ChunkBytesNotPositive);
    }
    hide TotalChunks;
    TotalIsPositive(|content|, chunkBytes);
    var chunks: seq<bytes> := [];
    var pos, producedAny := 0, false;
    ghost var total := TotalChunks(|content|, chunkBytes);
    while true
      invariant pos == Min(|chunks| * chunkBytes, |content|) && |chunks| <= total
      invariant producedAny <==> |chunks| > 0
      invariant |content| == 0 ==> |chunks| == 0
      invariant |content| > 0 && |chunks| == total ==> pos == |content|
      invariant forall i :: 0 <= i < |chunks| ==> chunks[i] == ChunkAt(content, chunkBytes, i)
      decreases |content| - pos
    {
      ghost var k := |chunks|;
      var end := Min(pos + chunkBytes, |content|);
      var data := content[pos..end];
      if data == [] {
        if |content| > 0 && k < total { ChunkBounds(|content|, chunkBytes, k); }
        break;
      }
      assert k < total;
      ChunkBounds(|content|, chunkBytes, k);
      assert (k + 1) * chunkBytes == k * chunkBytes + chunkBytes;
      chunks := chunks + [data];
      pos, producedAny := end, true;
    }
    if !producedAny {
      chunks := chunks + [[]];
      ChunkBounds(|content|, chunkBytes, 0);
    }
    return Ok(chunks);
  }

  /** Every chunk is full but the last, which is empty only for an empty file. */
  lemma ChunkSizes(content: bytes, chunkBytes: nat, i: nat)
    requires chunkBytes > 0 && i < TotalChunks(|content|, chunkBytes)
    ensures i + 1 < TotalChunks(|content|, chunkBytes) ==> |ChunkAt(content, chunkBytes, i)| == chunkBytes
    ensures |ChunkAt(content, chunkBytes, i)| <= chunkBytes
    ensures ChunkAt(content, chunkBytes, i) == [] <==> content == []
  {
    hide TotalChunks;
    ChunkBounds(|content|, chunkBytes, i);
    assert (i + 1) * chunkBytes == i * chunkBytes + chunkBytes;
    TotalIsPositive(|content|, chunkBytes);
  }

  /** The first k chunks joined. */
  function JoinChunks(chunks: map<nat, bytes>, k: nat): bytes
    requires forall i: nat :: i < k ==> i in chunks
  {
    if k == 0 then [] else JoinChunks(chunks, k - 1) + chunks[k - 1]
  }

  /** `assemble_chunks`. */
  function AssembleChunks(total: nat, chunks: map<nat, bytes>): Result<bytes, FileError> {
    if total < 1 then Err(NoChunks)
    else if forall i: nat :: i < total ==> i in chunks then Ok(JoinChunks(chunks, total))
    else Err(MissingChunks)
  }

  /** Joining all the right chunks gives the content back. */
  lemma {:induction false} ChunksJoinToContent(content: bytes, chunkBytes: nat, chunks: map<nat, bytes>, k: nat)
    requires chunkBytes > 0 && k <= TotalChunks(|content|, chunkBytes)
    requires forall i: nat :: i < k ==> i in chunks && chunks[i] == ChunkAt(content, chunkBytes, i)
    ensures JoinChunks(chunks, k) == content[..Min(k * chunkBytes, |content|)]
    ensures k == TotalChunks(|content|, chunkBytes) ==> JoinChunks(chunks, k) == content
  {
    hide TotalChunks, ChunkAt;
    if k == 0 {
      TotalIsPositive(|content|, chunkBytes);
      assert content[..0] == [];
    } else {
      ChunksJoinToContent(content, chunkBytes, chunks, k - 1);
      NextChunk(content, chunkBytes, k);
    }
  }

  /** The first k - 1 chunks' worth of content, and one more. */
  lemma NextChunk(content: bytes, chunkBytes: nat, k: nat)
    requires chunkBytes > 0 && 0 < k <= TotalChunks(|content|, chunkBytes)
    ensures content[..Min((k - 1) * chunkBytes, |content|)] + ChunkAt(content, chunkBytes, k - 1) ==
            content[..Min(k * chunkBytes, |content|)]
    ensures k == TotalChunks(|content|, chunkBytes) ==> content[..Min(k * chunkBytes, |content|)] == content
  {
    hide TotalChunks;
    ChunkBounds(|content|, chunkBytes, k - 1);
    SlicesJoin(content, (k - 1) * chunkBytes, Min(k * chunkBytes, |content|));
  }

  lemma SlicesJoin(s: bytes, from: nat, to: nat)
    requires from <= to <= |s|
    ensures s[..from] + s[from..to] == s[..to]
    ensures to == |s| ==> s[..to] == s
  {
  }

  // --------------------------------------------------------- associated data

  function Ascii(s: string): (b: bytes)
    ensures |b| == |s|
  {
    seq(|s|, i requires 0 <= i < |s| => s[i] as int % 256)
  }

  predicate IsAscii(s: string) { forall i :: 0 <= i < |s| ==> s[i] as int < 128 }

  lemma AsciiIsInjective(s: string, t: string)
    requires IsAscii(s) && IsAscii(t)
    ensures Ascii(s) == Ascii(t) <==> s == t
  {
    if Ascii(s) == Ascii(t) {
      forall i | 0 <= i < |s|
        ensures s[i] == t[i]
      {
        assert Ascii(s)[i] == s[i] as int && Ascii(t)[i] == t[i] as int;
      }
    }
  }

  /** A file id as `uuid4().hex` prints it. */
  predicate IsFileId(id: string) { |id| == 32 && IsHex(id) }

  function ChunkLabel(id: string, index: nat, total: nat): string {
    id + [':'] + (Decimal(index) + ['/'] + Decimal(total))
  }

  /** `aad_for_chunk`: refused unless index < total. */
  function AadForChunk(id: string, index: nat, total: nat): Result<bytes, FileError> {
    if total < 1 || index >= total then Err(BadIndex) else Ok(Ascii(ChunkLabel(id, index, total)))
  }

  /** `_aad`: chat, control and file-meta frames are bound to their kind only. */
  function AadForKind(kind: byte): bytes { [kind] }

  lemma LabelIsAscii(id: string, index: nat, total: nat)
    requires IsFileId(id)
    ensures IsAscii(ChunkLabel(id, index, total))
  {
  }

  /** The associated data spells out id, index and total, the numbers in
      decimal; there is none for an index outside the total. */
  lemma ChunkAadReads(id: string, index: nat, total: nat) returns (slash: nat)
    requires IsFileId(id)
    ensures AadForChunk(id, index, total).Ok? <==> index < total
    ensures var text := ChunkLabel(id, index, total);
            && 33 < slash < |text| - 1
            && text[..32] == id && text[32] == ':' && text[slash] == '/'
            && IsDecimal(text[33..slash]) && FromDecimal(text[33..slash]) == index
            && IsDecimal(text[slash + 1..]) && FromDecimal(text[slash + 1..]) == total
            && (index < total ==>
                  && |AadForChunk(id, index, total).value| == |text|
                  && forall k :: 0 <= k < |text| ==> AadForChunk(id, index, total).value[k] == text[k] as int)
  {
    hide Decimal, FromDecimal;
    var text := ChunkLabel(id, index, total);
    DecimalReadsBack(index);
    DecimalReadsBack(total);
    LabelIsAscii(id, index, total);
    slash := 33 + |Decimal(index)|;
    assert text[..32] == id && text[33..slash] == Decimal(index) && text[slash + 1..] == Decimal(total);
  }

  /** The label, hence the associated data, determines file, index and total;
      and it is never the associated data of a kind. */
  lemma ChunkAadIsInjective(id: string, index: nat, total: nat, id': string, index': nat, total': nat)
    requires IsFileId(id) && IsFileId(id') && index < total && index' < total'
    ensures AadForChunk(id, index, total) == AadForChunk(id', index', total') <==>
            id == id' && index == index' && total == total'
  {
    if AadForChunk(id, index, total) == AadForChunk(id', index', total') {
      LabelIsAscii(id, index, total);
      LabelIsAscii(id', index', total');
      AsciiIsInjective(ChunkLabel(id, index, total), ChunkLabel(id', index', total'));
      SplitAtSeparator(id, Decimal(index) + ['/'] + Decimal(total), id', Decimal(index') + ['/'] + Decimal(total'),
          ':');
      SplitAtSeparator(Decimal(index), Decimal(total), Decimal(index'), Decimal(total'), '/');
      DecimalIsInjective(index, index');
      DecimalIsInjective(total, total');
    }
  }

  lemma ChunkAadIsNoKindAad(id: string, index: nat, total: nat, kind: byte)
    requires IsFileId(id) && index < total
    ensures AadForChunk(id, index, total) != Ok(AadForKind(kind))
  {
    assert |ChunkLabel(id, index, total)| >= 32;
  }

  // ------------------------------------------------------------ chunk header

  const CHUNK_HEADER_LEN := 24

  /** Sixteen bytes of file id, four of index, four of total. */
  function ChunkHeader(id: string, index: nat, total: nat): (h: bytes)
    requires IsFileId(id) && index < 0x1_0000_0000 && total < 0x1_0000_0000
    ensures |h| == CHUNK_HEADER_LEN
  {
    FromHexThenHex(id);
    FromHex(id) + BE32(index) + BE32(total)
  }

  datatype ChunkIdentity = ChunkIdentity(fileId: string, index: nat, total: nat)

  function ParseChunkHeader(h: bytes): ChunkIdentity
    requires |h| >= CHUNK_HEADER_LEN
  {
    ChunkIdentity(Hex(h[..16]), FromBE32(h[16..20]), FromBE32(h[20..24]))
  }

  /** The header is read back as written, whatever follows it, and any header
      names a well-formed file id. */
  lemma ChunkHeaderRoundTrip(id: string, index: nat, total: nat, rest: bytes)
    requires IsFileId(id) && index < 0x1_0000_0000 && total < 0x1_0000_0000
    ensures ParseChunkHeader(ChunkHeader(id, index, total) + rest) == ChunkIdentity(id, index, total)
  {
    FromHexThenHex(id);
    BE32RoundTrip(index);
    BE32RoundTrip(total);
    var h := ChunkHeader(id, index, total) + rest;
    assert h[..16] == FromHex(id) && h[16..20] == BE32(index) && h[20..24] == BE32(total);
  }

  /** Where the header's fields stand. */
  lemma ChunkHeaderLayout(id: string, index: nat, total: nat)
    requires IsFileId(id) && index < 0x1_0000_0000 && total < 0x1_0000_0000
    ensures var h := ChunkHeader(id, index, total);
            Hex(h[..16]) == id && IsBigEndian(h[16..20], index) && IsBigEndian(h[20..], total)
  {
    FromHexThenHex(id);
    BE32RoundTrip(index);
    BE32RoundTrip(total);
    var h := ChunkHeader(id, index, total);
    assert h[..16] == FromHex(id) && h[16..20] == BE32(index) && h[20..] == BE32(total);
  }

  lemma ParsedFileId(h: bytes)
    requires |h| >= CHUNK_HEADER_LEN
    ensures IsFileId(ParseChunkHeader(h).fileId)
  {
    HexThenFromHex(h[..16]);
  }
}
