/** core/peer_link.py, application phase: what the reader does with each frame,
    and how a file is sealed and sent.  AES-GCM is the ideal AEAD of section 2
    of RFC 5116: a bundle opens exactly under the associated data it was
    sealed with, and only if a holder of the key sealed it. */
module PeerLinks {
  import opened Basics
  import opened Encoding
  import opened Framing
  import opened FileTransfer

  // -------------------------------------------------------------- ideal AEAD

  /** Everything sealed under the key so far: (bundle, associated data) to plaintext. */
  type Ledger = map<(bytes, bytes), bytes>

  datatype Opened = Plain(plaintext: bytes) | InvalidTag | TooShort

  /** Twelve bytes of nonce and sixteen of tag. */
  const BUNDLE_OVERHEAD := 28

  /** `CryptoEngine.decrypt`. */
  function Open(sealed: Ledger, bundle: bytes, aad: bytes): Opened {
    if |bundle| < BUNDLE_OVERHEAD then TooShort
    else if (bundle, aad) in sealed then Plain(sealed[(bundle, aad)])
    else InvalidTag
  }

  /** The library functions the link relies on: json and SHA-256. */
  datatype Env = Env(dumps: Meta -> bytes, loads: bytes -> Option<Meta>, digest: bytes -> string)

  /** json reads back what it wrote. */
  ghost predicate Faithful(env: Env) { forall m :: env.loads(env.dumps(m)) == Some(m) }

  // ---------------------------------------------------------------- receiver

  datatype Incoming = Incoming(meta: Meta, chunks: map<nat, bytes>)

  datatype Event =
    | ChatReceived(plaintext: bytes, bundle: bytes)
    | ChatDecryptionFailed(bundle: bytes)
    | FileMetaReceived(meta: Meta)
    | FileChunkReceived(fileId: string, index: nat, total: nat)
    | FileComplete(meta: Meta, shaOk: bool, plaintext: bytes)
    | ErrorRaised
    | PeerDisconnected

  /** One inbound observation for the intrusion detector. */
  datatype Record = Record(kind: byte, size: nat, decryptSuccess: bool)

  /** `alive` is false once an exception has ended the reader loop. */
  datatype Receiver = Receiver(incoming: map<string, Incoming>, recvSeq: nat, alive: bool,
                               events: seq<Event>, records: seq<Record>)

  function Fire(rx: Receiver, e: Event): Receiver { rx.(events := rx.events + [e]) }

  function Note(rx: Receiver, kind: byte, payload: bytes, ok: bool): Receiver {
    rx.(records := rx.records + [Record(kind, |payload|, ok)])
  }

  /** The exception a short bundle raises is not caught by these handlers. */
  function Die(rx: Receiver): Receiver { Fire(rx.(alive := false), ErrorRaised) }

  /** The end of the stream ends the reader loop too. */
  function Disconnect(rx: Receiver): Receiver {
    if rx.alive then Fire(rx.(alive := false), PeerDisconnected) else rx
  }

  function OnChat(sealed: Ledger, rx: Receiver, bundle: bytes): Receiver {
    var counted := rx.(recvSeq := rx.recvSeq + 1);
    match Open(sealed, bundle, AadForKind(KIND_CHAT))
    case TooShort => Die(counted)
    case InvalidTag => Fire(Note(counted, KIND_CHAT, bundle, false), ChatDecryptionFailed(bundle))
    case Plain(p) => Fire(Note(counted, KIND_CHAT, bundle, true), ChatReceived(p, bundle))
  }

  function OnControl(sealed: Ledger, rx: Receiver, bundle: bytes): Receiver {
    var counted := rx.(recvSeq := rx.recvSeq + 1);
    match Open(sealed, bundle, AadForKind(KIND_CONTROL))
    case TooShort => Die(counted)
    case InvalidTag => Fire(Note(counted, KIND_CONTROL, bundle, false), ErrorRaised)
    case Plain(_) => Note(counted, KIND_CONTROL, bundle, true)
  }

  function OnFileMeta(env: Env, sealed: Ledger, rx: Receiver, bundle: bytes): Receiver {
    var counted := rx.(recvSeq := rx.recvSeq + 1);
    match Open(sealed, bundle, AadForKind(KIND_FILE_META))
    case TooShort => Die(counted)
    case InvalidTag => Fire(Note(counted, KIND_FILE_META, bundle, false), ErrorRaised)
    case Plain(p) =>
      var noted := Note(counted, KIND_FILE_META, bundle, true);
      match env.loads(p)
      case None => Fire(noted, ErrorRaised)
      case Some(meta) =>
        Fire(noted.(incoming := noted.incoming[meta.fileId := Incoming(meta, map[])]), FileMetaReceived(meta))
  }

  /** Open a chunk under the identity its clear-text header claims. */
  function OpenChunk(sealed: Ledger, payload: bytes): Opened
    requires |payload| >= CHUNK_HEADER_LEN
  {
    var who := ParseChunkHeader(payload);
    match AadForChunk(who.fileId, who.index, who.total)
    case Err(_) => InvalidTag
    case Ok(aad) => Open(sealed, payload[CHUNK_HEADER_LEN..], aad)
  }

  /** The bookkeeping of an accepted chunk. */
  function AcceptChunk(env: Env, rx: Receiver, who: ChunkIdentity, chunk: bytes): Receiver
    requires who.fileId in rx.incoming
  {
    var entry := rx.incoming[who.fileId];
    var chunks := entry.chunks[who.index := chunk];
    var stored := Fire(rx.(incoming := rx.incoming[who.fileId := entry.(chunks := chunks)]),
                       FileChunkReceived(who.fileId, who.index, who.total));
    if |chunks| != who.total then stored
    else
      match AssembleChunks(who.total, chunks)
      case Err(_) => Fire(stored, ErrorRaised)
      case Ok(plaintext) =>
        var shaOk := env.digest(plaintext) == entry.meta.sha256;
        Fire(stored, FileComplete(entry.meta, shaOk, plaintext)).(incoming := stored.incoming - {who.fileId})
  }

  function OnFileChunk(env: Env, sealed: Ledger, rx: Receiver, payload: bytes): Receiver {
    if |payload| < CHUNK_HEADER_LEN then Fire(rx, ErrorRaised)
    else
      var who := ParseChunkHeader(payload);
      if who.fileId !in rx.incoming then Fire(rx, ErrorRaised)
      else
        match OpenChunk(sealed, payload)
        case Plain(chunk) => AcceptChunk(env, Note(rx, KIND_FILE_CHUNK, payload, true), who, chunk)
        case _ => Fire(Note(rx, KIND_FILE_CHUNK, payload, false), ErrorRaised)
  }

  /** The dispatch of `_reader_loop`; a reader that has ended sees nothing. */
  function OnFrame(env: Env, sealed: Ledger, rx: Receiver, f: Frame): Receiver {
    if !rx.alive then rx
    else if f.kind == KIND_CHAT then OnChat(sealed, rx, f.payload)
    else if f.kind == KIND_FILE_META then OnFileMeta(env, sealed, rx, f.payload)
    else if f.kind == KIND_FILE_CHUNK then OnFileChunk(env, sealed, rx, f.payload)
    else if f.kind == KIND_CONTROL then OnControl(sealed, rx, f.payload)
    else rx
  }

  function OnFrames(env: Env, sealed: Ledger, rx: Receiver, fs: seq<Frame>): Receiver {
    if fs == [] then rx else OnFrame(env, sealed, OnFrames(env, sealed, rx, fs[..|fs| - 1]), fs[|fs| - 1])
  }

  lemma {:induction false} EndedReaderSeesNothing(env: Env, sealed: Ledger, rx: Receiver, fs: seq<Frame>,
        more: seq<Frame>)
    requires !OnFrames(env, sealed, rx, fs).alive
    ensures OnFrames(env, sealed, rx, fs + more) == OnFrames(env, sealed, rx, fs)
    decreases |more|
  {
    if more == [] {
      assert fs + more == fs;
    } else {
      assert (fs + more)[..|fs + more| - 1] == fs + more[..|more| - 1];
      EndedReaderSeesNothing(env, sealed, rx, fs, more[..|more| - 1]);
    }
  }

  // ------------------------------------------------------------------ sender

  function FileMetaOf(env: Env, id: string, filename: string, content: bytes): Meta {
    MetaOf(content, FILE_CHUNK_BYTES, id, filename, env.digest)
  }

  function FileTotal(content: bytes): nat { TotalChunks(|content|, FILE_CHUNK_BYTES) }

  function ChunkAad(id: string, index: nat, total: nat): bytes
    requires index < total
  {
    AadForChunk(id, index, total).value
  }

  /** The ledger after the first k chunks of a file have been sealed, chunk i
      as bundles[i]. */
  function SealChunks(sealed: Ledger, id: string, content: bytes, bundles: seq<bytes>, k: nat): Ledger
    requires k <= FileTotal(content) == |bundles|
  {
    if k == 0 then sealed
    else SealChunks(sealed, id, content, bundles, k - 1)
         [(bundles[k - 1], ChunkAad(id, k - 1, FileTotal(content))) := ChunkAt(content, FILE_CHUNK_BYTES, k - 1)]
  }

  function SealFile(env: Env, sealed: Ledger, id: string, filename: string, content: bytes,
                    metaBundle: bytes, bundles: seq<bytes>): Ledger
    requires FileTotal(content) == |bundles|
  {
    SealChunks(sealed[(metaBundle, AadForKind(KIND_FILE_META)) := env.dumps(FileMetaOf(env, id, filename, content))],
               id, content, bundles, |bundles|)
  }

  function ChunkFrame(id: string, index: nat, total: nat, bundle: bytes): Frame
    requires IsFileId(id) && index < 0x1_0000_0000 && total < 0x1_0000_0000
  {
    Frame(KIND_FILE_CHUNK, ChunkHeader(id, index, total) + bundle)
  }

  /** The frames of a file's first k chunks. */
  function ChunkFrames(id: string, total: nat, bundles: seq<bytes>, k: nat): (fs: seq<Frame>)
    requires IsFileId(id) && k <= |bundles| == total < 0x1_0000_0000
    ensures |fs| == k
  {
    if k == 0 then [] else ChunkFrames(id, total, bundles, k - 1) + [ChunkFrame(id, k - 1, total, bundles[k - 1])]
  }

  lemma FileTotalIsSmall(content: bytes)
    requires |content| <= FILE_MAX_BYTES
    ensures 1 <= FileTotal(content) <= 800
  {
    TotalIsPositive(|content|, FILE_CHUNK_BYTES);
  }

  // ------------------------------------------------------------------- class

  /** The shared ideal cipher; `drawn` is the bundle a fresh nonce leads to. */
  class CryptoEngine {
    var sealed: Ledger

    constructor ()
      ensures sealed == map[]
    {
      sealed := map[];
    }

    method Encrypt(plaintext: bytes, aad: bytes, drawn: bytes)
      requires |drawn| == BUNDLE_OVERHEAD + |plaintext| && (drawn, aad) !in sealed
      modifies this
      ensures sealed == old(sealed)[(drawn, aad) := plaintext]
      ensures Open(sealed, drawn, aad) == Plain(plaintext)
    {
      sealed := sealed[(drawn, aad) := plaintext];
    }
  }

  class PeerLink {
    const env: Env
    const crypto: CryptoEngine
    var incoming: map<string, Incoming>
    var recvSeq: nat
    var alive: bool
    var events: seq<Event>
    var records: seq<Record>
    var sendSeq: nat
    var outbox: seq<Frame>

    constructor (env: Env, crypto: CryptoEngine)
      ensures this.env == env && this.crypto == crypto && outbox == [] && sendSeq == 0
      ensures State() == Receiver(map[], 0, true, [], [])
    {
      this.env, this.crypto := env, crypto;
      incoming, recvSeq, alive, events, records := map[], 0, true, [], [];
      sendSeq, outbox := 0, [];
    }

    function State(): Receiver
      reads this
    {
      Receiver(incoming, recvSeq, alive, events, records)
    }

    method RecordFrame(kind: byte, payload: bytes, ok: bool)
      modifies this`records
      ensures State() == Note(old(State()), kind, payload, ok)
    {
      records := records + [Record(kind, |payload|, ok)];
    }

    method FireEvent(e: Event)
      modifies this`events
      ensures State() == Fire(old(State()), e)
    {
      events := events + [e];
    }

    method HandleChat(bundle: bytes)
      modifies this`recvSeq, this`alive, this`events, this`records
      ensures State() == OnChat(crypto.sealed, old(State()), bundle)
    {
      recvSeq := recvSeq + 1;
      match Open(crypto.sealed, bundle, AadForKind(KIND_CHAT)) {
        case TooShort =>
          alive := false;
          FireEvent(ErrorRaised);
        case InvalidTag =>
          RecordFrame(KIND_CHAT, bundle, false);
          FireEvent(ChatDecryptionFailed(bundle));
        case Plain(p) =>
          RecordFrame(KIND_CHAT, bundle, true);
          FireEvent(ChatReceived(p, bundle));
      }
    }

    method HandleControl(bundle: bytes)
      modifies this`recvSeq, this`alive, this`events, this`records
      ensures State() == OnControl(crypto.sealed, old(State()), bundle)
    {
      recvSeq := recvSeq + 1;
      match Open(crypto.sealed, bundle, AadForKind(KIND_CONTROL)) {
        case TooShort =>
          alive := false;
          FireEvent(ErrorRaised);
        case InvalidTag =>
          RecordFrame(KIND_CONTROL, bundle, false);
          FireEvent(ErrorRaised);
        case Plain(_) =>
          RecordFrame(KIND_CONTROL, bundle, true);
      }
    }

    method HandleFileMeta(bundle: bytes)
      modifies this`recvSeq, this`alive, this`events, this`records, this`incoming
      ensures State() == OnFileMeta(env, crypto.sealed, old(State()), bundle)
    {
      recvSeq := recvSeq + 1;
      match Open(crypto.sealed, bundle, AadForKind(KIND_FILE_META)) {
        case TooShort =>
          alive := false;
          FireEvent(ErrorRaised);
        case InvalidTag =>
          RecordFrame(KIND_FILE_META, bundle, false);
          FireEvent(ErrorRaised);
        case Plain(p) =>
          RecordFrame(KIND_FILE_META, bundle, true);
          match env.loads(p) {
            case None => FireEvent(ErrorRaised);
            case Some(meta) =>
              incoming := incoming[meta.fileId := Incoming(meta, map[])];
              FireEvent(FileMetaReceived(meta));
          }
      }
    }

    method HandleFileChunk(payload: bytes)
      modifies this`events, this`records, this`incoming
      ensures State() == OnFileChunk(env, crypto.sealed, old(State()), payload)
    {
      if |payload| < CHUNK_HEADER_LEN {
        FireEvent(ErrorRaised);
        return;
      }
      var who := ParseChunkHeader(payload);
      if who.fileId !in incoming {
        FireEvent(ErrorRaised);
        return;
      }
      var answer := OpenChunk(crypto.sealed, payload);
      if !answer.Plain? {
        RecordFrame(KIND_FILE_CHUNK, payload, false);
        FireEvent(ErrorRaised);
        return;
      }
      RecordFrame(KIND_FILE_CHUNK, payload, true);
      StoreChunk(who, answer.plaintext);
    }

    method StoreChunk(who: ChunkIdentity, chunk: bytes)
      requires who.fileId in incoming
      modifies this`events, this`incoming
      ensures State() == AcceptChunk(env, old(State()), who, chunk)
    {
      var entry := incoming[who.fileId];
      entry := entry.(chunks := entry.chunks[who.index := chunk]);
      incoming := incoming[who.fileId := entry];
      FireEvent(FileChunkReceived(who.fileId, who.index, who.total));
      if |entry.chunks| == who.total {
        var assembled := AssembleChunks(who.total, entry.chunks);
        match assembled {
          case Err(_) => FireEvent(ErrorRaised);
          case Ok(plaintext) =>
            FireEvent(FileComplete(entry.meta, env.digest(plaintext) == entry.meta.sha256, plaintext));
            incoming := incoming - {who.fileId};
        }
      }
    }

    method HandleFrame(f: Frame)
      requires alive
      modifies this`recvSeq, this`alive, this`events, this`records, this`incoming
      ensures State() == OnFrame(env, crypto.sealed, old(State()), f)
    {
      if f.kind == KIND_CHAT {
        HandleChat(f.payload);
      } else if f.kind == KIND_FILE_META {
        HandleFileMeta(f.payload);
      } else if f.kind == KIND_FILE_CHUNK {
        HandleFileChunk(f.payload);
      } else if f.kind == KIND_CONTROL {
        HandleControl(f.payload);
      }
    }

    /** Reads frames off the transport and handles them until an exception or
        the disconnect ends the loop.  The transport has no timeout here.
        However the stream is split, what the link ends up with is the run of
        its handlers over the frames the hooks let through. */
    method ReaderLoop(transport: TcpTransport)
      requires alive && !transport.sock.hasTimeout
      modifies this`recvSeq, this`alive, this`events, this`records, this`incoming, transport, transport.sock
      ensures State() == Disconnect(OnFrames(env, crypto.sealed, old(State()),
                                             Delivered(transport.inboundHook, old(transport.sock.stream))))
      ensures !alive
    {
      hide OnFrame, Delivered, FirstDelivered;
      ghost var all, handled := Delivered(transport.inboundHook, transport.sock.stream), [];
      while alive
        invariant all == handled + Delivered(transport.inboundHook, transport.sock.stream)
        invariant State() == OnFrames(env, crypto.sealed, old(State()), handled)
        decreases |transport.sock.stream|, alive
      {
        FirstOfDelivered(transport.inboundHook, transport.sock.stream);
        var next := transport.RecvFrame();
        if next.Err? {
          assert handled == all;
          alive := false;
          FireEvent(PeerDisconnected);
          return;
        }
        HandleFrame(next.value);
        assert (handled + [next.value])[..|handled|] == handled;
        handled := handled + [next.value];
      }
      EndedReaderSeesNothing(env, crypto.sealed, old(State()), handled, all[|handled|..]);
    }

    /** Seals and sends the announcement and then every chunk in order.
        `id` is the fresh file id, `metaBundle` and `bundles` what the cipher draws. */
    method SendFile(content: bytes, id: string, filename: string, metaBundle: bytes, bundles: seq<bytes>)
      returns (r: Result<Meta, FileError>)
      requires IsFileId(id)
      requires |content| <= FILE_MAX_BYTES ==>
                 FreshBundles(env, crypto.sealed, id, filename, content, metaBundle, bundles)
      modifies crypto, this`sendSeq, this`outbox
      ensures |content| > FILE_MAX_BYTES ==>
                && r == Err(FileTooLarge) && crypto.sealed == old(crypto.sealed) && outbox == old(outbox)
                && sendSeq == old(sendSeq)
      ensures |content| <= FILE_MAX_BYTES ==>
                && r == Ok(FileMetaOf(env, id, filename, content)) && sendSeq == old(sendSeq) + 1
                && |bundles| == FileTotal(content) <= 800
                && crypto.sealed == SealFile(env, old(crypto.sealed), id, filename, content, metaBundle, bundles)
                && outbox == old(outbox) + [Frame(KIND_FILE_META, metaBundle)] +
                             ChunkFrames(id, |bundles|, bundles, |bundles|)
    {
      r := MakeFileMeta(content, FILE_CHUNK_BYTES, id, filename, env.digest);
      if r.Err? {
        return;
      }
      FileTotalIsSmall(content);
      ghost var sealed1 := crypto.sealed;
      AllNew(env, sealed1, id, filename, content, metaBundle, bundles);
      hide TotalChunks, ChunkFrame, ChunkFrames, ChunkAt, ChunkAad, AadForChunk, FreshBundles, FileTotal, FileMetaOf,
           SealChunks;
      sendSeq := sendSeq + 1;
      crypto.Encrypt(env.dumps(r.value), AadForKind(KIND_FILE_META), metaBundle);
      outbox := outbox + [Frame(KIND_FILE_META, metaBundle)];
      ghost var sealed0, outbox0 := crypto.sealed, outbox;
      NothingSealedYet(sealed0, id, content, bundles);
      assert outbox0 + [] == outbox0;
      var chunks := IterChunks(content, FILE_CHUNK_BYTES);
      for i := 0 to |chunks.value|
        invariant crypto.sealed == SealChunks(sealed0, id, content, bundles, i) && sendSeq == old(sendSeq) + 1
        invariant outbox == outbox0 + ChunkFrames(id, |bundles|, bundles, i)
      {
        var aad := ChunkAad(id, i, r.value.totalChunks);
        NextIsNew(env, sealed1, id, filename, content, metaBundle, bundles, i);
        crypto.Encrypt(chunks.value[i], aad, bundles[i]);
        outbox := outbox + [ChunkFrame(id, i, r.value.totalChunks, bundles[i])];
        OneChunkMore(sealed0, id, content, bundles, i);
      }
    }
  }

  /** What freshness amounts to at the first seal of a file. */
  lemma AllNew(env: Env, sealed: Ledger, id: string, filename: string, content: bytes, metaBundle: bytes,
               bundles: seq<bytes>)
    requires FreshBundles(env, sealed, id, filename, content, metaBundle, bundles)
    ensures |bundles| == FileTotal(content) == TotalChunks(|content|, FILE_CHUNK_BYTES)
    ensures |bundles| == FileMetaOf(env, id, filename, content).totalChunks
    ensures FileMetaOf(env, id, filename, content) == MetaOf(content, FILE_CHUNK_BYTES, id, filename, env.digest)
    ensures |metaBundle| == BUNDLE_OVERHEAD + |env.dumps(FileMetaOf(env, id, filename, content))|
    ensures (metaBundle, AadForKind(KIND_FILE_META)) !in sealed
  {
    hide ChunkAt, AadForChunk;
  }

  lemma NothingSealedYet(sealed: Ledger, id: string, content: bytes, bundles: seq<bytes>)
    requires IsFileId(id) && |bundles| == FileTotal(content) < 0x1_0000_0000
    ensures SealChunks(sealed, id, content, bundles, 0) == sealed
    ensures ChunkFrames(id, |bundles|, bundles, 0) == []
  {
  }

  lemma OneChunkMore(sealed: Ledger, id: string, content: bytes, bundles: seq<bytes>, i: nat)
    requires IsFileId(id) && i < |bundles| == FileTotal(content) < 0x1_0000_0000
    ensures SealChunks(sealed, id, content, bundles, i + 1) ==
            SealChunks(sealed, id, content, bundles, i)
              [(bundles[i], ChunkAad(id, i, |bundles|)) := ChunkAt(content, FILE_CHUNK_BYTES, i)]
    ensures ChunkFrames(id, |bundles|, bundles, i + 1) ==
            ChunkFrames(id, |bundles|, bundles, i) + [ChunkFrame(id, i, |bundles|, bundles[i])]
  {
    hide TotalChunks, ChunkAt, AadForChunk, ChunkFrame;
  }

  /** And at each later one. */
  lemma NextIsNew(env: Env, sealed: Ledger, id: string, filename: string, content: bytes, metaBundle: bytes,
                  bundles: seq<bytes>, i: nat)
    requires FreshBundles(env, sealed, id, filename, content, metaBundle, bundles) && IsFileId(id) && i < |bundles|
    ensures i < TotalChunks(|content|, FILE_CHUNK_BYTES) && |bundles| == FileTotal(content)
    ensures |bundles[i]| == BUNDLE_OVERHEAD + |ChunkAt(content, FILE_CHUNK_BYTES, i)|
    ensures (bundles[i], ChunkAad(id, i, |bundles|)) !in
            SealChunks(sealed[(metaBundle, AadForKind(KIND_FILE_META)) :=
                         env.dumps(FileMetaOf(env, id, filename, content))], id, content, bundles, i)
  {
    hide TotalChunks, ChunkAt, AadForChunk;
    var announcement := env.dumps(FileMetaOf(env, id, filename, content));
    var sealed0 := sealed[(metaBundle, AadForKind(KIND_FILE_META)) := announcement];
    SealedKeys(sealed0, id, content, bundles, i);
    ChunkAadsDiffer(id, i, |bundles|);
  }

  /** The cipher never repeats itself: each bundle is new under its
      associated data and has the length its plaintext calls for. */
  predicate FreshBundles(env: Env, sealed: Ledger, id: string, filename: string, content: bytes,
                         metaBundle: bytes, bundles: seq<bytes>)
  {
    && |bundles| == FileTotal(content)
    && |metaBundle| == BUNDLE_OVERHEAD + |env.dumps(FileMetaOf(env, id, filename, content))|
    && (metaBundle, AadForKind(KIND_FILE_META)) !in sealed
    && forall i :: 0 <= i < |bundles| ==>
         && |bundles[i]| == BUNDLE_OVERHEAD + |ChunkAt(content, FILE_CHUNK_BYTES, i)|
         && (bundles[i], ChunkAad(id, i, FileTotal(content))) !in sealed
  }

  lemma {:induction false} SealedKeys(sealed: Ledger, id: string, content: bytes, bundles: seq<bytes>, k: nat)
    requires k <= FileTotal(content) == |bundles|
    ensures forall key :: key in SealChunks(sealed, id, content, bundles, k) ==>
              key in sealed || exists i: nat :: i < k && key == (bundles[i], ChunkAad(id, i, |bundles|))
  {
    hide TotalChunks, ChunkAt, AadForChunk;
    if k > 0 { SealedKeys(sealed, id, content, bundles, k - 1); }
  }

  lemma ChunkAadsDiffer(id: string, index: nat, total: nat)
    requires IsFileId(id) && index < total
    ensures forall i: nat :: i < index ==> ChunkAad(id, i, total) != ChunkAad(id, index, total)
    ensures ChunkAad(id, index, total) != AadForKind(KIND_FILE_META)
  {
    forall i: nat | i < index { ChunkAadIsInjective(id, i, total, id, index, total); }
    ChunkAadIsNoKindAad(id, index, total, KIND_FILE_META);
  }
}
