/** A file from one link to another over TCP: `send_file` at one end, any split
    of the byte stream in between, the reader loop at the other end. */
module FileDelivery {
  import opened Basics
  import opened Framing
  import opened FileTransfer
  import opened PeerLinks
  import opened FileSafety

  /** The frames `send_file` puts on the wire. */
  function FileFrames(id: string, metaBundle: bytes, bundles: seq<bytes>): seq<Frame>
    requires IsFileId(id) && |bundles| < 0x1_0000_0000
  {
    [Frame(KIND_FILE_META, metaBundle)] + ChunkFrames(id, |bundles|, bundles, |bundles|)
  }

  lemma {:induction false} ChunkFrameAt(id: string, total: nat, bundles: seq<bytes>, k: nat, i: nat)
    requires IsFileId(id) && i < k <= |bundles| == total < 0x1_0000_0000
    ensures ChunkFrames(id, total, bundles, k)[i] == ChunkFrame(id, i, total, bundles[i])
  {
    hide ChunkFrame;
    if i < k - 1 { ChunkFrameAt(id, total, bundles, k - 1, i); }
  }

  /** The announcement, then chunk after chunk, each behind a header with the
      file's id, its place and the total. */
  lemma FileFramesInOrder(id: string, metaBundle: bytes, bundles: seq<bytes>, i: nat)
    requires IsFileId(id) && i < |bundles| < 0x1_0000_0000
    ensures var frames := FileFrames(id, metaBundle, bundles);
            var payload := frames[i + 1].payload;
            && |frames| == |bundles| + 1
            && frames[0] == Frame(KIND_FILE_META, metaBundle)
            && frames[i + 1].kind == KIND_FILE_CHUNK && |payload| == CHUNK_HEADER_LEN + |bundles[i]|
            && ParseChunkHeader(payload) == ChunkIdentity(id, i, |bundles|) && payload[CHUNK_HEADER_LEN..] == bundles[i]
  {
    hide ParseChunkHeader, ChunkHeader, ChunkFrames;
    ChunkFrameAt(id, |bundles|, bundles, |bundles|, i);
    ChunkHeaderRoundTrip(id, i, |bundles|, bundles[i]);
  }

  lemma {:induction false} FirstFrameFirst(env: Env, sealed: Ledger, rx: Receiver, f: Frame, fs: seq<Frame>)
    ensures OnFrames(env, sealed, rx, [f] + fs) == OnFrames(env, sealed, OnFrame(env, sealed, rx, f), fs)
    decreases |fs|
  {
    hide OnFrame;
    var all := [f] + fs;
    if fs == [] {
      assert all == [f] && all[..0] == [];
      assert OnFrames(env, sealed, rx, []) == rx;
    } else {
      assert all[..|all| - 1] == [f] + fs[..|fs| - 1];
      FirstFrameFirst(env, sealed, rx, f, fs[..|fs| - 1]);
    }
  }

  lemma ChunkIsSmall(content: bytes, i: nat)
    requires i < FileTotal(content)
    ensures |ChunkAt(content, FILE_CHUNK_BYTES, i)| <= FILE_CHUNK_BYTES
  {
    hide TotalChunks;
    ChunkBounds(|content|, FILE_CHUNK_BYTES, i);
    assert (i + 1) * FILE_CHUNK_BYTES == i * FILE_CHUNK_BYTES + FILE_CHUNK_BYTES;
  }

  lemma {:induction false} ChunkFramesAreSendable(id: string, content: bytes, bundles: seq<bytes>, k: nat)
    requires IsFileId(id) && k <= |bundles| == FileTotal(content) < 0x1_0000_0000
    requires forall i :: 0 <= i < |bundles| ==>
               |bundles[i]| == BUNDLE_OVERHEAD + |ChunkAt(content, FILE_CHUNK_BYTES, i)|
    ensures forall f :: f in ChunkFrames(id, |bundles|, bundles, k) ==> Sendable(f)
  {
    hide TotalChunks, ChunkAt, ChunkHeader;
    if k > 0 {
      ChunkFramesAreSendable(id, content, bundles, k - 1);
      ChunkIsSmall(content, k - 1);
    }
  }

  lemma FileIsSendable(env: Env, sealed: Ledger, id: string, file: File, metaBundle: bytes, bundles: seq<bytes>)
    requires IsFileId(id) && |file.content| <= FILE_MAX_BYTES && |metaBundle| < 0x1_0000_0000
    requires FreshBundles(env, sealed, id, file.filename, file.content, metaBundle, bundles)
    ensures |bundles| == FileTotal(file.content) < 0x1_0000_0000
    ensures forall f :: f in FileFrames(id, metaBundle, bundles) ==> Sendable(f)
  {
    hide FileTotal, FileMetaOf, ChunkAt;
    FileTotalIsSmall(file.content);
    ChunkFramesAreSendable(id, file.content, bundles, |bundles|);
  }

  /** The last things a link reports: the completed file, then the disconnect. */
  predicate FileArrived(env: Env, file: File, id: string, events: seq<Event>) {
    && |events| >= 2
    && events[|events| - 2] == FileComplete(FileMetaOf(env, id, file.filename, file.content), true, file.content)
    && events[|events| - 1] == PeerDisconnected
  }

  /** Encoded, split in any way, read back and handled, the frames of a file
      sent in a reachable state hand over exactly that file. */
  lemma FileArrives(env: Env, acts: seq<Act>, file: File, id: string, metaBundle: bytes, bundles: seq<bytes>)
    requires Faithful(env) && Run(env, acts).rx.alive
    requires IsFileId(id) && id !in Run(env, acts).files && |file.content| <= FILE_MAX_BYTES
    requires |metaBundle| < 0x1_0000_0000 && |bundles| == FileTotal(file.content) < 0x1_0000_0000
    requires FreshBundles(env, Run(env, acts).sealed, id, file.filename, file.content, metaBundle, bundles)
    requires forall f :: f in FileFrames(id, metaBundle, bundles) ==> Sendable(f)
    ensures var w, frames := Run(env, acts), FileFrames(id, metaBundle, bundles);
            var sealed := SealFile(env, w.sealed, id, file.filename, file.content, metaBundle, bundles);
            && Delivered(PassOn, EncodeAll(frames)) == frames
            && FileArrived(env, file, id, Disconnect(OnFrames(env, sealed, w.rx, frames)).events)
  {
    hide FileTotal, FileMetaOf, FreshBundles, OnFrame, OnFrames, Run, SealFile, Delivered, EncodeAll;
    var w, frames := Run(env, acts), FileFrames(id, metaBundle, bundles);
    LosslessTransferCompletes(env, acts, id, file, metaBundle, bundles);
    var k := StreamIsDelivered(PassOn, frames, |EncodeAll(frames)|);
    assert EncodeAll(frames)[..|EncodeAll(frames)|] == EncodeAll(frames) && frames[..k] == frames;
    FirstFrameFirst(env, SealFile(env, w.sealed, id, file.filename, file.content, metaBundle, bundles), w.rx,
                    Frame(KIND_FILE_META, metaBundle), ChunkFrames(id, |bundles|, bundles, |bundles|));
  }

  /** End to end: whatever has happened on the link so far, sending a file and
      closing leaves the receiving link with exactly that file handed over,
      its digest correct, and then the disconnect, however the byte stream
      between them was split into reads. */
  method SendAndReceive(sender: PeerLink, receiver: PeerLink, file: File, id: string, metaBundle: bytes,
                        bundles: seq<bytes>, script: seq<ReadEvent>, ghost acts: seq<Act>)
    requires sender != receiver && sender.env == receiver.env && sender.crypto == receiver.crypto
    requires Faithful(sender.env) && receiver.alive
    requires receiver.State() == Run(sender.env, acts).rx && sender.crypto.sealed == Run(sender.env, acts).sealed
    requires IsFileId(id) && id !in Run(sender.env, acts).files && |file.content| <= FILE_MAX_BYTES
    requires |metaBundle| < 0x1_0000_0000
    requires FreshBundles(sender.env, sender.crypto.sealed, id, file.filename, file.content, metaBundle, bundles)
    modifies sender, receiver, sender.crypto
    ensures var events := receiver.events;
            && |events| >= 2
            && events[|events| - 2] ==
               FileComplete(FileMetaOf(sender.env, id, file.filename, file.content), true, file.content)
            && events[|events| - 1] == PeerDisconnected
    ensures !receiver.alive
  {
    hide FileTotal, FileMetaOf, FreshBundles, OnFrames, Run, SealFile, Delivered, EncodeAll, FileArrived, FileFrames;
    ghost var rx := receiver.State();
    FileIsSendable(sender.env, sender.crypto.sealed, id, file, metaBundle, bundles);
    FileArrives(sender.env, acts, file, id, metaBundle, bundles);
    var from := |sender.outbox|;
    var meta := sender.SendFile(file.content, id, file.filename, metaBundle, bundles);
    var frames := sender.outbox[from..];
    assert frames == FileFrames(id, metaBundle, bundles) by { FramesOfFile(id, metaBundle, bundles); }
    var sock := new Socket(EncodeAll(frames), script, false);
    var transport := new TcpTransport(sock, PassOn);
    receiver.ReaderLoop(transport);
    ArrivedMeans(sender.env, file, id, receiver.events);
  }

  lemma FramesOfFile(id: string, metaBundle: bytes, bundles: seq<bytes>)
    requires IsFileId(id) && |bundles| < 0x1_0000_0000
    ensures FileFrames(id, metaBundle, bundles) ==
            [Frame(KIND_FILE_META, metaBundle)] + ChunkFrames(id, |bundles|, bundles, |bundles|)
  {
  }

  lemma ArrivedMeans(env: Env, file: File, id: string, events: seq<Event>)
    requires FileArrived(env, file, id, events)
    ensures |events| >= 2 && events[|events| - 1] == PeerDisconnected
    ensures events[|events| - 2] == FileComplete(FileMetaOf(env, id, file.filename, file.content), true, file.content)
  {
  }
}
