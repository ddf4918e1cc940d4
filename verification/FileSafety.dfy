/** File transfer end to end: honest senders under one key, and a channel that
    may deliver any frame at all, any number of times, in any order. */
module FileSafety {
  import opened Basics
  import opened Encoding
  import opened Framing
  import opened FileTransfer
  import opened PeerLinks

  datatype File = File(filename: string, content: bytes)

  /** What has been sealed, the files sent so far by id, and the receiver. */
  datatype World = World(sealed: Ledger, files: map<string, File>, rx: Receiver)

  datatype Act =
    | SendFile(id: string, file: File, metaBundle: bytes, bundles: seq<bytes>)
    | SealOther(kind: byte, plaintext: bytes, bundle: bytes)
    | Deliver(frame: Frame)

  /** One step: a sender announces and seals a file under a new id; a sender
      seals a chat or control message; or the channel delivers any frame. */
  function Step(env: Env, w: World, act: Act): World {
    match act
    case SendFile(id, file, metaBundle, bundles) =>
      if IsFileId(id) && id !in w.files && |bundles| == FileTotal(file.content) &&
         FreshBundles(env, w.sealed, id, file.filename, file.content, metaBundle, bundles)
      then World(SealFile(env, w.sealed, id, file.filename, file.content, metaBundle, bundles), w.files[id := file],
           w.rx)
      else w
    case SealOther(kind, plaintext, bundle) =>
      if (kind == KIND_CHAT || kind == KIND_CONTROL) && (bundle, AadForKind(kind)) !in w.sealed
      then w.(sealed := w.sealed[(bundle, AadForKind(kind)) := plaintext])
      else w
    case Deliver(frame) => w.(rx := OnFrame(env, w.sealed, w.rx, frame))
  }

  function Run(env: Env, acts: seq<Act>): World {
    if acts == [] then World(map[], map[], Receiver(map[], 0, true, [], []))
    else Step(env, Run(env, acts[..|acts| - 1]), acts[|acts| - 1])
  }

  // -------------------------------------------------------- ledger invariant

  /** What opens under the file-meta kind announces a file that was sent. */
  ghost predicate MetasOk(env: Env, files: map<string, File>, sealed: Ledger) {
    forall b :: (b, AadForKind(KIND_FILE_META)) in sealed ==>
      exists id :: id in files &&
        sealed[(b, AadForKind(KIND_FILE_META))] == env.dumps(FileMetaOf(env, id, files[id].filename, files[id].content))
  }

  /** What opens as chunk (id, i, t) is chunk i of the file sent under id, and t its chunk count. */
  ghost predicate ChunksOk(files: map<string, File>, sealed: Ledger) {
    forall b, id, i: nat, t: nat ::
      IsFileId(id) && i < t && (b, ChunkAad(id, i, t)) in sealed ==>
        IsChunkOf(files, id, i, t, sealed[(b, ChunkAad(id, i, t))])
  }

  predicate IsChunkOf(files: map<string, File>, id: string, i: nat, t: nat, plaintext: bytes) {
    && id in files && t == FileTotal(files[id].content) && i < t
    && plaintext == ChunkAt(files[id].content, FILE_CHUNK_BYTES, i)
  }

  ghost predicate LedgerOk(env: Env, files: map<string, File>, sealed: Ledger) {
    MetasOk(env, files, sealed) && ChunksOk(files, sealed)
  }

  lemma MoreFiles(env: Env, files: map<string, File>, sealed: Ledger, id: string, file: File)
    requires LedgerOk(env, files, sealed) && id !in files
    ensures LedgerOk(env, files[id := file], sealed)
  {
    hide AadForChunk, FileTotal, FileMetaOf;
    var more := files[id := file];
    forall b | (b, AadForKind(KIND_FILE_META)) in sealed
      ensures exists k :: k in more &&
                sealed[(b, AadForKind(KIND_FILE_META))] ==
                    env.dumps(FileMetaOf(env, k, more[k].filename, more[k].content))
    {
      var k :| k in files &&
        sealed[(b, AadForKind(KIND_FILE_META))] == env.dumps(FileMetaOf(env, k, files[k].filename, files[k].content));
      assert k in more && more[k] == files[k];
    }
  }

  lemma SealMeta(env: Env, files: map<string, File>, sealed: Ledger, id: string, bundle: bytes)
    requires LedgerOk(env, files, sealed) && id in files
    ensures LedgerOk(env, files, sealed[(bundle, AadForKind(KIND_FILE_META)) :=
                                        env.dumps(FileMetaOf(env, id, files[id].filename, files[id].content))])
  {
    hide AadForChunk, FileTotal, FileMetaOf;
    forall k, i: nat, t: nat | IsFileId(k) && i < t
      ensures ChunkAad(k, i, t) != AadForKind(KIND_FILE_META)
    {
      ChunkAadIsNoKindAad(k, i, t, KIND_FILE_META);
      ChunkAadIsOk(k, i, t);
    }
  }

  lemma ChunkAadIsOk(id: string, i: nat, t: nat)
    requires i < t
    ensures AadForChunk(id, i, t) == Ok(ChunkAad(id, i, t))
  {
  }

  /** Sealing under a kind other than file-meta touches neither promise. */
  lemma SealKind(env: Env, files: map<string, File>, sealed: Ledger, kind: byte, bundle: bytes, plaintext: bytes)
    requires LedgerOk(env, files, sealed) && kind != KIND_FILE_META
    ensures LedgerOk(env, files, sealed[(bundle, AadForKind(kind)) := plaintext])
  {
    hide AadForChunk, FileTotal, FileMetaOf;
    assert AadForKind(kind)[0] != AadForKind(KIND_FILE_META)[0];
    forall k, i: nat, t: nat | IsFileId(k) && i < t
      ensures ChunkAad(k, i, t) != AadForKind(kind)
    {
      ChunkAadIsNoKindAad(k, i, t, kind);
      ChunkAadIsOk(k, i, t);
    }
  }

  lemma SealChunk(env: Env, files: map<string, File>, sealed: Ledger, id: string, i: nat, bundle: bytes)
    requires LedgerOk(env, files, sealed) && IsFileId(id) && id in files && i < FileTotal(files[id].content)
    ensures LedgerOk(env, files, sealed[(bundle, ChunkAad(id, i, FileTotal(files[id].content))) :=
                                        ChunkAt(files[id].content, FILE_CHUNK_BYTES, i)])
  {
    hide AadForChunk, FileMetaOf, ChunkAt, TotalChunks;
    var t := FileTotal(files[id].content);
    var more := sealed[(bundle, ChunkAad(id, i, t)) := ChunkAt(files[id].content, FILE_CHUNK_BYTES, i)];
    ChunkAadIsNoKindAad(id, i, t, KIND_FILE_META);
    ChunkAadIsOk(id, i, t);
    forall b, id', i': nat, t': nat | IsFileId(id') && i' < t' && (b, ChunkAad(id', i', t')) in more
      ensures IsChunkOf(files, id', i', t', more[(b, ChunkAad(id', i', t'))])
    {
      ChunkAadIsOk(id', i', t');
      ChunkAadIsInjective(id, i, t, id', i', t');
    }
  }

  lemma {:induction false} SealAllChunks(env: Env, files: map<string, File>, sealed: Ledger, id: string,
        bundles: seq<bytes>, k: nat)
    requires LedgerOk(env, files, sealed) && IsFileId(id) && id in files
    requires k <= FileTotal(files[id].content) == |bundles|
    ensures LedgerOk(env, files, SealChunks(sealed, id, files[id].content, bundles, k))
  {
    hide LedgerOk, ChunkAad, ChunkAt, FileTotal;
    if k > 0 {
      SealAllChunks(env, files, sealed, id, bundles, k - 1);
      SealChunk(env, files, SealChunks(sealed, id, files[id].content, bundles, k - 1), id, k - 1, bundles[k - 1]);
    }
  }

  // ------------------------------------------------------ receiver invariant

  /** What the receiver holds for a file is part of what was sent. */
  ghost predicate EntryOk(env: Env, files: map<string, File>, id: string, entry: Incoming) {
    && id in files
    && entry.meta == FileMetaOf(env, id, files[id].filename, files[id].content)
    && |entry.chunks| < FileTotal(files[id].content)
    && forall i :: i in entry.chunks ==> IsChunkOf(files, id, i, FileTotal(files[id].content), entry.chunks[i])
  }

  /** A completed file is the file that was sent, and its digest checks. */
  ghost predicate EventOk(env: Env, files: map<string, File>, e: Event) {
    e.FileComplete? ==>
      && e.meta.fileId in files
      && e.meta == FileMetaOf(env, e.meta.fileId, files[e.meta.fileId].filename, files[e.meta.fileId].content)
      && e.plaintext == files[e.meta.fileId].content && e.shaOk
  }

  ghost predicate RxOk(env: Env, files: map<string, File>, rx: Receiver) {
    && (forall id :: id in rx.incoming ==> EntryOk(env, files, id, rx.incoming[id]))
    && (forall i :: 0 <= i < |rx.events| ==> EventOk(env, files, rx.events[i]))
  }

  function IndicesBelow(n: nat): (s: set<nat>)
    ensures forall i: nat :: i in s <==> i < n
    ensures |s| == n
  {
    if n == 0 then {} else IndicesBelow(n - 1) + {n - 1}
  }

  /** Pigeonhole: n distinct indices below n are all of them. */
  lemma AllIndicesPresent(keys: set<nat>, n: nat)
    requires (forall i :: i in keys ==> i < n) && |keys| >= n
    ensures keys == IndicesBelow(n)
  {
    var all := IndicesBelow(n);
    assert keys <= all;
    if i :| i in all && i !in keys {
      SubsetSize(keys, all - {i});
      assert false;
    }
  }

  lemma {:induction false} SubsetSize(a: set<nat>, b: set<nat>)
    requires a <= b
    ensures |a| <= |b|
    decreases |a|
  {
    if x :| x in a { SubsetSize(a - {x}, b - {x}); }
  }

  lemma MetaNamesItsFile(env: Env, id: string, file: File)
    ensures FileMetaOf(env, id, file.filename, file.content).fileId == id
    ensures FileMetaOf(env, id, file.filename, file.content).sha256 == env.digest(file.content)
  {
    hide TotalChunks;
  }

  /** The outcome of storing an accepted chunk: with the last index the whole
      content comes out and the entry goes, otherwise the entry stays
      incomplete.  `assemble_chunks` never finds a chunk missing. */
  lemma AcceptIsSafe(env: Env, files: map<string, File>, rx: Receiver, who: ChunkIdentity, chunk: bytes)
    requires RxOk(env, files, rx) && who.fileId in rx.incoming
    requires IsChunkOf(files, who.fileId, who.index, who.total, chunk)
    ensures RxOk(env, files, AcceptChunk(env, rx, who, chunk))
    ensures var entry := rx.incoming[who.fileId];
            var stored := rx.events + [FileChunkReceived(who.fileId, who.index, who.total)];
            if |entry.chunks[who.index := chunk]| == who.total
            then AcceptChunk(env, rx, who, chunk).events ==
                 stored + [FileComplete(entry.meta, true, files[who.fileId].content)]
            else AcceptChunk(env, rx, who, chunk).events == stored
  {
    hide ChunkAt, FileTotal, AssembleChunks, AcceptChunk, FileMetaOf, RxOk;
    var id := who.fileId;
    var entry := EntryOf(env, files, rx, id);
    var chunks := entry.chunks[who.index := chunk];
    var accepted := FileChunkReceived(id, who.index, who.total);
    if |chunks| == who.total {
      LastChunkAssembles(files, id, chunks);
      MetaNamesItsFile(env, id, files[id]);
      AcceptLast(env, rx, who, chunk, files[id].content);
      DropKeepsRx(env, files, rx, id);
      FireKeepsRx(env, files, rx.(incoming := rx.incoming - {id}), accepted);
      FireKeepsRx(env, files, Fire(rx.(incoming := rx.incoming - {id}), accepted),
                  FileComplete(entry.meta, true, files[id].content));
    } else {
      SizesAfterStore(entry.chunks, who.index, chunk);
      AcceptStores(env, rx, who, chunk);
      StoreKeepsRx(env, files, rx, id, entry.(chunks := chunks));
      FireKeepsRx(env, files, rx.(incoming := rx.incoming[id := entry.(chunks := chunks)]), accepted);
    }
  }

  lemma EntryOf(env: Env, files: map<string, File>, rx: Receiver, id: string) returns (entry: Incoming)
    requires RxOk(env, files, rx) && id in rx.incoming
    ensures entry == rx.incoming[id] && EntryOk(env, files, id, entry)
  {
    hide EntryOk;
    entry := rx.incoming[id];
  }

  lemma FireKeepsRx(env: Env, files: map<string, File>, rx: Receiver, e: Event)
    requires RxOk(env, files, rx) && EventOk(env, files, e)
    ensures RxOk(env, files, Fire(rx, e))
  {
    hide EntryOk, EventOk;
  }

  lemma StoreKeepsRx(env: Env, files: map<string, File>, rx: Receiver, id: string, entry: Incoming)
    requires RxOk(env, files, rx) && EntryOk(env, files, id, entry)
    ensures RxOk(env, files, rx.(incoming := rx.incoming[id := entry]))
  {
    hide EntryOk, EventOk;
  }

  lemma DropKeepsRx(env: Env, files: map<string, File>, rx: Receiver, id: string)
    requires RxOk(env, files, rx)
    ensures RxOk(env, files, rx.(incoming := rx.incoming - {id}))
  {
    hide EntryOk, EventOk;
  }

  /** Storing the chunk that completes a file. */
  lemma AcceptLast(env: Env, rx: Receiver, who: ChunkIdentity, chunk: bytes, plaintext: bytes)
    requires who.fileId in rx.incoming
    requires var chunks := rx.incoming[who.fileId].chunks[who.index := chunk];
             |chunks| == who.total && AssembleChunks(who.total, chunks) == Ok(plaintext)
    ensures var meta := rx.incoming[who.fileId].meta;
            AcceptChunk(env, rx, who, chunk) ==
            Fire(Fire(rx.(incoming := rx.incoming - {who.fileId}), FileChunkReceived(who.fileId, who.index, who.total)),
                 FileComplete(meta, env.digest(plaintext) == meta.sha256, plaintext))
  {
    hide AssembleChunks;
    var id, entry := who.fileId, rx.incoming[who.fileId];
    assert rx.incoming[id := entry.(chunks := entry.chunks[who.index := chunk])] - {id} == rx.incoming - {id};
  }

  /** A full set of a file's chunks assembles to its content. */
  lemma LastChunkAssembles(files: map<string, File>, id: string, chunks: map<nat, bytes>)
    requires id in files && |chunks| == FileTotal(files[id].content)
    requires forall i :: i in chunks ==> IsChunkOf(files, id, i, FileTotal(files[id].content), chunks[i])
    ensures AssembleChunks(|chunks|, chunks) == Ok(files[id].content)
  {
    hide ChunkAt, FileTotal, JoinChunks;
    assert |chunks.Keys| == |chunks|;
    AllIndicesPresent(chunks.Keys, |chunks|);
    TotalIsRight(files[id].content);
    ChunksJoinToContent(files[id].content, FILE_CHUNK_BYTES, chunks, |chunks|);
  }

  /** Storing a chunk that is not the last. */
  lemma AcceptStores(env: Env, rx: Receiver, who: ChunkIdentity, chunk: bytes)
    requires who.fileId in rx.incoming
    ensures AcceptChunk(env, rx, who, chunk).alive == rx.alive
    ensures var entry := rx.incoming[who.fileId];
            var chunks := entry.chunks[who.index := chunk];
            |chunks| != who.total ==>
              AcceptChunk(env, rx, who, chunk) ==
              Fire(rx.(incoming := rx.incoming[who.fileId := entry.(chunks := chunks)]),
                   FileChunkReceived(who.fileId, who.index, who.total))
  {
    hide AssembleChunks;
  }

  lemma SizesAfterStore(chunks: map<nat, bytes>, index: nat, chunk: bytes)
    ensures |chunks[index := chunk]| <= |chunks| + 1
  {
    assert chunks[index := chunk].Keys == chunks.Keys + {index};
    assert |chunks[index := chunk]| == |chunks[index := chunk].Keys| && |chunks| == |chunks.Keys|;
    if index in chunks { assert chunks.Keys + {index} == chunks.Keys; }
  }

  lemma TotalIsRight(content: bytes)
    ensures FileTotal(content) == TotalChunks(|content|, FILE_CHUNK_BYTES) >= 1
  {
    TotalIsPositive(|content|, FILE_CHUNK_BYTES);
  }

  lemma OpenedChunk(env: Env, files: map<string, File>, sealed: Ledger, payload: bytes)
    requires LedgerOk(env, files, sealed) && |payload| >= CHUNK_HEADER_LEN && OpenChunk(sealed, payload).Plain?
    ensures var who := ParseChunkHeader(payload);
            IsChunkOf(files, who.fileId, who.index, who.total, OpenChunk(sealed, payload).plaintext)
  {
    hide ChunkAt, FileTotal, ParseChunkHeader;
    var who := ParseChunkHeader(payload);
    ParsedFileId(payload);
    assert who.index < who.total;
    ChunkAadIsOk(who.fileId, who.index, who.total);
  }

  /** One delivered frame, whatever it is. */
  lemma DeliverIsSafe(env: Env, files: map<string, File>, sealed: Ledger, rx: Receiver, f: Frame)
    requires Faithful(env) && LedgerOk(env, files, sealed) && RxOk(env, files, rx)
    ensures RxOk(env, files, OnFrame(env, sealed, rx, f))
  {
    hide OnFileMeta, OnFileChunk, RxOk, LedgerOk, FileMetaOf;
    if f.kind == KIND_FILE_META {
      MetaIsSafe(env, files, sealed, rx, f.payload);
    } else if f.kind == KIND_FILE_CHUNK {
      ChunkIsSafe(env, files, sealed, rx, f.payload);
    } else {
      var counted, b := rx.(recvSeq := rx.recvSeq + 1), f.payload;
      NoteKeepsRx(env, files, rx, counted, f.kind, b);
      FireKeepsRx(env, files, counted.(alive := false), ErrorRaised);
      FireKeepsRx(env, files, Note(counted, f.kind, b, false), ErrorRaised);
      FireKeepsRx(env, files, Note(counted, f.kind, b, false), ChatDecryptionFailed(b));
      var answer := Open(sealed, b, AadForKind(KIND_CHAT));
      if answer.Plain? { FireKeepsRx(env, files, Note(counted, f.kind, b, true), ChatReceived(answer.plaintext, b)); }
    }
  }

  lemma ChunkIsSafe(env: Env, files: map<string, File>, sealed: Ledger, rx: Receiver, payload: bytes)
    requires LedgerOk(env, files, sealed) && RxOk(env, files, rx)
    ensures RxOk(env, files, OnFileChunk(env, sealed, rx, payload))
  {
    hide ParseChunkHeader, OpenChunk, AcceptChunk, RxOk, LedgerOk, IsChunkOf;
    NoteKeepsRx(env, files, rx, rx, KIND_FILE_CHUNK, payload);
    FireKeepsRx(env, files, rx, ErrorRaised);
    FireKeepsRx(env, files, Note(rx, KIND_FILE_CHUNK, payload, false), ErrorRaised);
    if |payload| >= CHUNK_HEADER_LEN {
      var who := ParseChunkHeader(payload);
      if who.fileId in rx.incoming && OpenChunk(sealed, payload).Plain? {
        OpenedChunk(env, files, sealed, payload);
        AcceptIsSafe(env, files, Note(rx, KIND_FILE_CHUNK, payload, true), who, OpenChunk(sealed, payload).plaintext);
      }
    }
  }

  lemma MetaIsSafe(env: Env, files: map<string, File>, sealed: Ledger, rx: Receiver, bundle: bytes)
    requires Faithful(env) && LedgerOk(env, files, sealed) && RxOk(env, files, rx)
    ensures RxOk(env, files, OnFileMeta(env, sealed, rx, bundle))
  {
    hide ChunkAt, TotalChunks, IsChunkOf, ChunksOk, RxOk;
    var aad := AadForKind(KIND_FILE_META);
    var counted := rx.(recvSeq := rx.recvSeq + 1);
    NoteKeepsRx(env, files, rx, counted, KIND_FILE_META, bundle);
    var noted, failed := Note(counted, KIND_FILE_META, bundle, true), Note(counted, KIND_FILE_META, bundle, false);
    match Open(sealed, bundle, aad)
    case TooShort => FireKeepsRx(env, files, counted.(alive := false), ErrorRaised);
    case InvalidTag => FireKeepsRx(env, files, failed, ErrorRaised);
    case Plain(p) =>
      var id :| id in files && p == env.dumps(FileMetaOf(env, id, files[id].filename, files[id].content));
      var meta := FileMetaOf(env, id, files[id].filename, files[id].content);
      assert env.loads(p) == Some(meta);
      FreshEntry(env, files, id);
      StoreKeepsRx(env, files, noted, id, Incoming(meta, map[]));
      FireKeepsRx(env, files, noted.(incoming := noted.incoming[id := Incoming(meta, map[])]), FileMetaReceived(meta));
  }

  lemma FreshEntry(env: Env, files: map<string, File>, id: string)
    requires id in files
    ensures var meta := FileMetaOf(env, id, files[id].filename, files[id].content);
            meta.fileId == id && EntryOk(env, files, id, Incoming(meta, map[]))
  {
    hide TotalChunks, IsChunkOf;
    TotalIsRight(files[id].content);
  }

  // ------------------------------------------------------------- whole runs

  ghost predicate WorldOk(env: Env, w: World) {
    LedgerOk(env, w.files, w.sealed) && RxOk(env, w.files, w.rx)
  }

  lemma NewFileKeepsRx(env: Env, files: map<string, File>, rx: Receiver, id: string, file: File)
    requires RxOk(env, files, rx) && id !in files
    ensures RxOk(env, files[id := file], rx)
  {
    hide ChunkAt, FileTotal, FileMetaOf;
  }

  lemma {:induction false} RunsAreSafe(env: Env, acts: seq<Act>)
    requires Faithful(env)
    ensures WorldOk(env, Run(env, acts))
  {
    hide LedgerOk, RxOk, OnFrame, SealFile, FreshBundles, FileTotal;
    if acts == [] {
      NothingSealed(env);
    } else {
      RunsAreSafe(env, acts[..|acts| - 1]);
      var w, act := Run(env, acts[..|acts| - 1]), acts[|acts| - 1];
      match act
      case SendFile(id, file, metaBundle, bundles) =>
        if Step(env, w, act) != w { SendIsSafe(env, w, id, file, metaBundle, bundles); }
      case SealOther(kind, plaintext, bundle) =>
        if kind == KIND_CHAT || kind == KIND_CONTROL { SealKind(env, w.files, w.sealed, kind, bundle, plaintext); }
      case Deliver(frame) => DeliverIsSafe(env, w.files, w.sealed, w.rx, frame);
    }
  }

  lemma NothingSealed(env: Env)
    ensures WorldOk(env, World(map[], map[], Receiver(map[], 0, true, [], [])))
  {
    hide AadForChunk;
  }

  lemma SendIsSafe(env: Env, w: World, id: string, file: File, metaBundle: bytes, bundles: seq<bytes>)
    requires WorldOk(env, w) && IsFileId(id) && id !in w.files && |bundles| == FileTotal(file.content)
    ensures WorldOk(env, World(SealFile(env, w.sealed, id, file.filename, file.content, metaBundle, bundles),
                               w.files[id := file], w.rx))
  {
    hide LedgerOk, RxOk, FileTotal, FileMetaOf, SealChunks;
    var files := w.files[id := file];
    MoreFiles(env, w.files, w.sealed, id, file);
    SealMeta(env, files, w.sealed, id, metaBundle);
    SealAllChunks(env, files,
                  w.sealed[(metaBundle, AadForKind(KIND_FILE_META)) :=
                      env.dumps(FileMetaOf(env, id, file.filename, file.content))],
                  id, bundles, |bundles|);
    NewFileKeepsRx(env, w.files, w.rx, id, file);
  }

  /** Safety: in every run, over a channel that may reorder, drop, duplicate,
      tamper and invent, each completion hands over exactly the content sent
      under that file id, with a digest that checks. */
  lemma CompletedFilesAreGenuine(env: Env, acts: seq<Act>, w: World, e: Event)
    requires Faithful(env) && w == Run(env, acts) && e in w.rx.events && e.FileComplete?
    ensures e.meta.fileId in w.files && e.plaintext == w.files[e.meta.fileId].content && e.shaOk
  {
    hide Run, LedgerOk;
    RunsAreSafe(env, acts);
    assert EventOk(env, w.files, e);
  }

  // ------------------------------------------------- exactly when it completes

  /** The indices accepted for a file since its last announcement or completion. */
  function AcceptedSince(events: seq<Event>, id: string): set<nat> {
    if events == [] then {}
    else
      var rest, last := events[..|events| - 1], events[|events| - 1];
      match last
      case FileMetaReceived(meta) => if meta.fileId == id then {} else AcceptedSince(rest, id)
      case FileComplete(meta, _, _) => if meta.fileId == id then {} else AcceptedSince(rest, id)
      case FileChunkReceived(fid, index, _) => AcceptedSince(rest, id) + if fid == id then {index} else {}
      case _ => AcceptedSince(rest, id)
  }

  /** The file has been announced and not completed since. */
  predicate Pending(events: seq<Event>, id: string) {
    if events == [] then false
    else
      var rest, last := events[..|events| - 1], events[|events| - 1];
      match last
      case FileMetaReceived(meta) => meta.fileId == id || Pending(rest, id)
      case FileComplete(meta, _, _) => meta.fileId != id && Pending(rest, id)
      case _ => Pending(rest, id)
  }

  function Announcements(events: seq<Event>, id: string): nat {
    if events == [] then 0
    else Announcements(events[..|events| - 1], id) +
         var e := events[|events| - 1]; if e.FileMetaReceived? && e.meta.fileId == id then 1 else 0
  }

  function Completions(events: seq<Event>, id: string): nat {
    if events == [] then 0
    else Completions(events[..|events| - 1], id) +
         var e := events[|events| - 1]; if e.FileComplete? && e.meta.fileId == id then 1 else 0
  }

  /** The receiver's bookkeeping is what its own history says. */
  ghost predicate HistoryOk(rx: Receiver) {
    forall id ::
      && (id in rx.incoming <==> Pending(rx.events, id))
      && (id in rx.incoming ==> rx.incoming[id].chunks.Keys == AcceptedSince(rx.events, id))
      && Completions(rx.events, id) + (if id in rx.incoming then 1 else 0) <= Announcements(rx.events, id)
  }

  lemma EventAdds(events: seq<Event>, e: Event, id: string)
    ensures AcceptedSince(events + [e], id) ==
            match e
            case FileMetaReceived(meta) => if meta.fileId == id then {} else AcceptedSince(events, id)
            case FileComplete(meta, _, _) => if meta.fileId == id then {} else AcceptedSince(events, id)
            case FileChunkReceived(fid, index, _) => AcceptedSince(events, id) + if fid == id then {index} else {}
            case _ => AcceptedSince(events, id)
    ensures Pending(events + [e], id) ==
            match e
            case FileMetaReceived(meta) => meta.fileId == id || Pending(events, id)
            case FileComplete(meta, _, _) => meta.fileId != id && Pending(events, id)
            case _ => Pending(events, id)
    ensures Announcements(events + [e], id) ==
            Announcements(events, id) + if e.FileMetaReceived? && e.meta.fileId == id then 1 else 0
    ensures Completions(events + [e], id) ==
            Completions(events, id) + if e.FileComplete? && e.meta.fileId == id then 1 else 0
  {
    assert (events + [e])[..|events|] == events;
  }

  /** Events that concern no file leave the history alone. */
  lemma PlainEvent(rx: Receiver, e: Event)
    requires HistoryOk(rx) && !e.FileMetaReceived? && !e.FileChunkReceived? && !e.FileComplete?
    ensures HistoryOk(Fire(rx, e))
  {
    hide AcceptedSince, Pending, Announcements, Completions;
    forall id { EventAdds(rx.events, e, id); }
  }

  lemma HistoryOfMeta(rx: Receiver, meta: Meta)
    requires HistoryOk(rx)
    ensures HistoryOk(Fire(rx.(incoming := rx.incoming[meta.fileId := Incoming(meta, map[])]), FileMetaReceived(meta)))
  {
    hide AcceptedSince, Pending, Announcements, Completions;
    forall id { EventAdds(rx.events, FileMetaReceived(meta), id); }
  }

  lemma HistoryOfChunk(rx: Receiver, who: ChunkIdentity, chunk: bytes)
    requires HistoryOk(rx) && who.fileId in rx.incoming
    ensures var entry := rx.incoming[who.fileId];
            var stored := Fire(rx.(incoming := rx.incoming[who.fileId :=
                entry.(chunks := entry.chunks[who.index := chunk])]),
                               FileChunkReceived(who.fileId, who.index, who.total));
            && HistoryOk(stored)
            && stored.incoming[who.fileId].chunks.Keys == AcceptedSince(rx.events, who.fileId) + {who.index}
  {
    hide AcceptedSince, Pending, Announcements, Completions;
    forall id { EventAdds(rx.events, FileChunkReceived(who.fileId, who.index, who.total), id); }
  }

  lemma HistoryOfCompletion(rx: Receiver, id: string, shaOk: bool, plaintext: bytes)
    requires HistoryOk(rx) && id in rx.incoming && rx.incoming[id].meta.fileId == id
    ensures HistoryOk(Fire(rx, FileComplete(rx.incoming[id].meta, shaOk, plaintext)).(incoming := rx.incoming - {id}))
  {
    hide AcceptedSince, Pending, Announcements, Completions;
    forall k { EventAdds(rx.events, FileComplete(rx.incoming[id].meta, shaOk, plaintext), k); }
  }

  lemma HistoryOfAccept(env: Env, files: map<string, File>, rx: Receiver, who: ChunkIdentity, chunk: bytes)
    requires HistoryOk(rx) && RxOk(env, files, rx) && who.fileId in rx.incoming
    requires IsChunkOf(files, who.fileId, who.index, who.total, chunk)
    ensures HistoryOk(AcceptChunk(env, rx, who, chunk))
  {
    hide HistoryOk, ChunkAt, FileTotal, AssembleChunks, AcceptedSince;
    var entry := rx.incoming[who.fileId];
    HistoryOfChunk(rx, who, chunk);
    var stored := Fire(rx.(incoming := rx.incoming[who.fileId := entry.(chunks := entry.chunks[who.index := chunk])]),
                       FileChunkReceived(who.fileId, who.index, who.total));
    assert stored.incoming[who.fileId].meta == entry.meta;
    assert entry.meta.fileId == who.fileId;
    if |stored.incoming[who.fileId].chunks| == who.total {
      match AssembleChunks(who.total, stored.incoming[who.fileId].chunks)
      case Ok(p) => HistoryOfCompletion(stored, who.fileId, env.digest(p) == entry.meta.sha256, p);
      case Err(_) => PlainEvent(stored, ErrorRaised);
    }
  }

  lemma HistoryOfFrame(env: Env, files: map<string, File>, sealed: Ledger, rx: Receiver, f: Frame)
    requires LedgerOk(env, files, sealed) && RxOk(env, files, rx) && HistoryOk(rx)
    ensures HistoryOk(OnFrame(env, sealed, rx, f))
  {
    hide LedgerOk, RxOk, ChunkAt, FileTotal, ParseChunkHeader, OpenChunk, AcceptChunk, Open, IsChunkOf;
    if !rx.alive {
    } else if f.kind == KIND_CHAT || f.kind == KIND_CONTROL || f.kind == KIND_FILE_META {
      SmallHistory(env, sealed, rx, f);
    } else if f.kind == KIND_FILE_CHUNK && |f.payload| >= CHUNK_HEADER_LEN {
      var who := ParseChunkHeader(f.payload);
      PlainEvent(rx, ErrorRaised);
      PlainEvent(Note(rx, KIND_FILE_CHUNK, f.payload, false), ErrorRaised);
      if who.fileId in rx.incoming && OpenChunk(sealed, f.payload).Plain? {
        OpenedChunk(env, files, sealed, f.payload);
        var noted := Note(rx, KIND_FILE_CHUNK, f.payload, true);
        assert RxOk(env, files, noted) by { NoteKeepsRx(env, files, rx, rx, KIND_FILE_CHUNK, f.payload); }
        HistoryOfAccept(env, files, noted, who, OpenChunk(sealed, f.payload).plaintext);
      }
    } else {
      PlainEvent(rx, ErrorRaised);
    }
  }

  /** Sequence number, records and life of the loop do not matter. */
  lemma NoteKeepsRx(env: Env, files: map<string, File>, rx: Receiver, counted: Receiver, kind: byte, payload: bytes)
    requires RxOk(env, files, rx) && counted.incoming == rx.incoming && counted.events == rx.events
    ensures RxOk(env, files, counted.(alive := false))
    ensures RxOk(env, files, Note(counted, kind, payload, true)) &&
            RxOk(env, files, Note(counted, kind, payload, false))
  {
    hide EntryOk, EventOk;
  }

  lemma SmallHistory(env: Env, sealed: Ledger, rx: Receiver, f: Frame)
    requires HistoryOk(rx) && (f.kind == KIND_CHAT || f.kind == KIND_CONTROL || f.kind == KIND_FILE_META)
    ensures HistoryOk(OnFrame(env, sealed, rx, f))
  {
    hide HistoryOk;
    var b := f.payload;
    var counted := rx.(recvSeq := rx.recvSeq + 1);
    NoteKeepsHistory(rx, counted, f.kind, b);
    PlainEvent(counted.(alive := false), ErrorRaised);
    PlainEvent(Note(counted, f.kind, b, false), ErrorRaised);
    PlainEvent(Note(counted, f.kind, b, false), ChatDecryptionFailed(b));
    PlainEvent(Note(counted, f.kind, b, true), ErrorRaised);
    if f.kind == KIND_CHAT && Open(sealed, b, AadForKind(KIND_CHAT)).Plain? {
      PlainEvent(Note(counted, f.kind, b, true), ChatReceived(Open(sealed, b, AadForKind(KIND_CHAT)).plaintext, b));
    }
    if f.kind == KIND_FILE_META && Open(sealed, b, AadForKind(KIND_FILE_META)).Plain? {
      var loaded := env.loads(Open(sealed, b, AadForKind(KIND_FILE_META)).plaintext);
      if loaded.Some? { HistoryOfMeta(Note(counted, f.kind, b, true), loaded.value); }
    }
  }

  lemma NoteKeepsHistory(rx: Receiver, counted: Receiver, kind: byte, payload: bytes)
    requires HistoryOk(rx) && counted.incoming == rx.incoming && counted.events == rx.events
    ensures HistoryOk(counted.(alive := false))
    ensures HistoryOk(Note(counted, kind, payload, true)) && HistoryOk(Note(counted, kind, payload, false))
  {
    hide AcceptedSince, Pending, Announcements, Completions;
  }

  lemma {:induction false} RunsKeepHistory(env: Env, acts: seq<Act>)
    requires Faithful(env)
    ensures HistoryOk(Run(env, acts).rx)
  {
    if acts == [] {
    } else {
      hide HistoryOk, LedgerOk, RxOk, OnFrame, SealFile, FreshBundles, FileTotal;
      var w, act := Run(env, acts[..|acts| - 1]), acts[|acts| - 1];
      RunsKeepHistory(env, acts[..|acts| - 1]);
      RunsAreSafe(env, acts[..|acts| - 1]);
      if act.Deliver? { HistoryOfFrame(env, w.files, w.sealed, w.rx, act.frame); }
    }
  }

  /** The channel's frame is accepted as a chunk of a pending file. */
  predicate Accepts(w: World, f: Frame) {
    && w.rx.alive && f.kind == KIND_FILE_CHUNK && |f.payload| >= CHUNK_HEADER_LEN
    && ParseChunkHeader(f.payload).fileId in w.rx.incoming && OpenChunk(w.sealed, f.payload).Plain?
  }

  /** What an accepted chunk does. */
  lemma AcceptedFrame(env: Env, sealed: Ledger, rx: Receiver, f: Frame)
    requires rx.alive && f.kind == KIND_FILE_CHUNK && |f.payload| >= CHUNK_HEADER_LEN
    requires ParseChunkHeader(f.payload).fileId in rx.incoming && OpenChunk(sealed, f.payload).Plain?
    ensures OnFrame(env, sealed, rx, f) ==
            AcceptChunk(env, Note(rx, KIND_FILE_CHUNK, f.payload, true), ParseChunkHeader(f.payload),
                        OpenChunk(sealed, f.payload).plaintext)
  {
    hide ParseChunkHeader, OpenChunk, AcceptChunk;
  }

  /** A file completes exactly when the accepted chunk is the last of its
      indices since the last accepted announcement, never more often than it
      was announced; and then the completion is the last event. */
  lemma CompletesExactlyWhenAllIndicesAreIn(env: Env, acts: seq<Act>, f: Frame)
    requires Faithful(env) && Accepts(Run(env, acts), f)
    ensures var w, who := Run(env, acts), ParseChunkHeader(f.payload);
            var after := OnFrame(env, w.sealed, w.rx, f).events;
            && who.fileId in w.files && who.total == FileTotal(w.files[who.fileId].content)
            && Pending(w.rx.events, who.fileId)
            && (after[|after| - 1].FileComplete? <==>
                AcceptedSince(w.rx.events, who.fileId) + {who.index} == IndicesBelow(who.total))
            && (after[|after| - 1].FileComplete? ==>
                after[|after| - 1] == FileComplete(FileMetaOf(env, who.fileId, w.files[who.fileId].filename,
                    w.files[who.fileId].content),
                                                   true, w.files[who.fileId].content))
            && Completions(after, who.fileId) <= Announcements(after, who.fileId)
  {
    hide ChunkAt, FileTotal, ParseChunkHeader, OpenChunk, AcceptedSince, Pending, Announcements, Completions,
         LedgerOk, AcceptChunk, FileMetaOf, OnFrame;
    var w, who := Run(env, acts), ParseChunkHeader(f.payload);
    RunsAreSafe(env, acts);
    RunsKeepHistory(env, acts);
    HistoryOfFrame(env, w.files, w.sealed, w.rx, f);
    OpenedChunk(env, w.files, w.sealed, f.payload);
    var noted, chunk := Note(w.rx, KIND_FILE_CHUNK, f.payload, true), OpenChunk(w.sealed, f.payload).plaintext;
    AcceptedFrame(env, w.sealed, w.rx, f);
    AcceptIsSafe(env, w.files, noted, who, chunk);
    var chunks := w.rx.incoming[who.fileId].chunks[who.index := chunk];
    assert chunks.Keys == AcceptedSince(w.rx.events, who.fileId) + {who.index};
    assert |chunks| == |chunks.Keys|;
    if |chunks| == who.total { AllIndicesPresent(chunks.Keys, who.total); }
  }

  // ----------------------------------------------------------- lossless case

  lemma {:induction false} SealedChunks(sealed: Ledger, id: string, content: bytes, bundles: seq<bytes>, k: nat, i: nat)
    requires IsFileId(id) && i < k <= FileTotal(content) == |bundles|
    ensures (bundles[i], ChunkAad(id, i, |bundles|)) in SealChunks(sealed, id, content, bundles, k)
    ensures SealChunks(sealed, id, content, bundles, k)[(bundles[i], ChunkAad(id, i, |bundles|))] ==
            ChunkAt(content, FILE_CHUNK_BYTES, i)
  {
    hide TotalChunks, ChunkAt, AadForChunk;
    if i < k - 1 {
      SealedChunks(sealed, id, content, bundles, k - 1, i);
      ChunkAadIsOk(id, i, |bundles|);
      ChunkAadIsOk(id, k - 1, |bundles|);
      ChunkAadIsInjective(id, i, |bundles|, id, k - 1, |bundles|);
    }
  }

  /** The cipher state in which chunk i of the file opens as bundles[i]. */
  ghost predicate ChunksOpen(sealed: Ledger, id: string, content: bytes, bundles: seq<bytes>) {
    && |bundles| == FileTotal(content)
    && forall i: nat :: i < |bundles| ==>
         Open(sealed, bundles[i], ChunkAad(id, i, |bundles|)) == Plain(ChunkAt(content, FILE_CHUNK_BYTES, i))
  }

  lemma ChunkFrameOpens(sealed: Ledger, id: string, content: bytes, bundles: seq<bytes>, i: nat)
    requires IsFileId(id) && ChunksOpen(sealed, id, content, bundles) && i < |bundles| < 0x1_0000_0000
    ensures var payload := ChunkFrame(id, i, |bundles|, bundles[i]).payload;
            && |payload| >= CHUNK_HEADER_LEN
            && ParseChunkHeader(payload) == ChunkIdentity(id, i, |bundles|)
            && OpenChunk(sealed, payload) == Plain(ChunkAt(content, FILE_CHUNK_BYTES, i))
  {
    hide TotalChunks, ChunkAt, Open, ParseChunkHeader, ChunkHeader;
    ChunkHeaderRoundTrip(id, i, |bundles|, bundles[i]);
    var payload := ChunkFrame(id, i, |bundles|, bundles[i]).payload;
    assert payload[CHUNK_HEADER_LEN..] == bundles[i];
    ChunkAadIsOk(id, i, |bundles|);
  }

  lemma ChunkFrameKind(id: string, index: nat, total: nat, bundle: bytes)
    requires IsFileId(id) && index < 0x1_0000_0000 && total < 0x1_0000_0000
    ensures ChunkFrame(id, index, total, bundle).kind == KIND_FILE_CHUNK
  {
  }

  /** After the first k chunks of an announced file, delivered in order, the
      entry holds exactly those; after all of them the file has completed. */
  lemma {:induction false} InOrder(env: Env, files: map<string, File>, sealed: Ledger, rx: Receiver, id: string,
        bundles: seq<bytes>, k: nat)
    requires IsFileId(id) && id in files && ChunksOpen(sealed, id, files[id].content, bundles)
    requires RxOk(env, files, rx) && rx.alive && id in rx.incoming && rx.incoming[id].chunks == map[]
    requires k <= |bundles| < 0x1_0000_0000
    ensures var after := OnFrames(env, sealed, rx, ChunkFrames(id, |bundles|, bundles, k));
            && after.alive && RxOk(env, files, after)
            && (k < |bundles| ==> id in after.incoming && after.incoming[id].chunks.Keys == IndicesBelow(k))
            && (0 < k == |bundles| ==>
                  after.events != [] &&
                  after.events[|after.events| - 1] ==
                  FileComplete(FileMetaOf(env, id, files[id].filename, files[id].content), true, files[id].content))
  {
    hide ChunksOpen, RxOk, ChunkAt, FileTotal, OnFrame, FileMetaOf, ChunkFrame;
    var frames := ChunkFrames(id, |bundles|, bundles, k);
    if k > 0 {
      InOrder(env, files, sealed, rx, id, bundles, k - 1);
      assert frames[..k - 1] == ChunkFrames(id, |bundles|, bundles, k - 1);
      ChunkFrameOpens(sealed, id, files[id].content, bundles, k - 1);
      NextInOrder(env, files, sealed, OnFrames(env, sealed, rx, frames[..k - 1]), id, bundles, k - 1);
    }
  }

  lemma EntryMeta(env: Env, files: map<string, File>, rx: Receiver, id: string)
    requires RxOk(env, files, rx) && id in rx.incoming
    ensures id in files && rx.incoming[id].meta == FileMetaOf(env, id, files[id].filename, files[id].content)
  {
    hide FileMetaOf, IsChunkOf, EventOk, FileTotal;
  }

  lemma NextInOrder(env: Env, files: map<string, File>, sealed: Ledger, rx: Receiver, id: string, bundles: seq<bytes>,
        k: nat)
    requires IsFileId(id) && id in files && ChunksOpen(sealed, id, files[id].content, bundles)
    requires RxOk(env, files, rx) && rx.alive && id in rx.incoming && rx.incoming[id].chunks.Keys == IndicesBelow(k)
    requires k < |bundles| < 0x1_0000_0000
    ensures var after := OnFrame(env, sealed, rx, ChunkFrame(id, k, |bundles|, bundles[k]));
            && after.alive && RxOk(env, files, after)
            && (k + 1 < |bundles| ==> id in after.incoming && after.incoming[id].chunks.Keys == IndicesBelow(k + 1))
            && (k + 1 == |bundles| ==>
                  after.events != [] &&
                  after.events[|after.events| - 1] ==
                  FileComplete(FileMetaOf(env, id, files[id].filename, files[id].content), true, files[id].content))
  {
    hide ChunkAt, FileTotal, ParseChunkHeader, OpenChunk, FileMetaOf, AcceptChunk, ChunkFrame, OnFrame, RxOk, Open,
         ChunkAad;
    var f := ChunkFrame(id, k, |bundles|, bundles[k]);
    ChunkFrameOpens(sealed, id, files[id].content, bundles, k);
    TotalIsRight(files[id].content);
    EntryMeta(env, files, rx, id);
    var who, chunk := ChunkIdentity(id, k, |bundles|), ChunkAt(files[id].content, FILE_CHUNK_BYTES, k);
    var noted := Note(rx, KIND_FILE_CHUNK, f.payload, true);
    NoteKeepsRx(env, files, rx, rx, KIND_FILE_CHUNK, f.payload);
    assert f.kind == KIND_FILE_CHUNK by { ChunkFrameKind(id, k, |bundles|, bundles[k]); }
    AcceptedFrame(env, sealed, rx, f);
    AcceptIsSafe(env, files, noted, who, chunk);
    AcceptStores(env, noted, who, chunk);
    var chunks := rx.incoming[id].chunks[k := chunk];
    assert chunks.Keys == IndicesBelow(k + 1);
    assert |chunks| == |chunks.Keys| == k + 1;
  }

  /** Round trip: from any reachable state with a live reader, sending a file
      under a new id and delivering its frames in order ends with exactly the
      sent content handed over. */
  lemma LosslessTransferCompletes(env: Env, acts: seq<Act>, id: string, file: File, metaBundle: bytes,
        bundles: seq<bytes>)
    requires Faithful(env) && Run(env, acts).rx.alive
    requires IsFileId(id) && id !in Run(env, acts).files && |file.content| <= FILE_MAX_BYTES &&
             |bundles| == FileTotal(file.content)
    requires FreshBundles(env, Run(env, acts).sealed, id, file.filename, file.content, metaBundle, bundles)
    ensures |bundles| <= 800
    ensures var sent := Step(env, Run(env, acts), SendFile(id, file, metaBundle, bundles));
            var announced := OnFrame(env, sent.sealed, sent.rx, Frame(KIND_FILE_META, metaBundle));
            var received := OnFrames(env, sent.sealed, announced, ChunkFrames(id, |bundles|, bundles, |bundles|));
            var events := received.events;
            && received.alive && events != []
            && events[|events| - 1] == FileComplete(FileMetaOf(env, id, file.filename, file.content), true,
                file.content)
  {
    hide FileTotal, FileMetaOf, ChunkAt, RxOk, LedgerOk, SealChunks, ChunkAad;
    FileTotalIsSmall(file.content);
    RunsAreSafe(env, acts);
    var w := Run(env, acts);
    var sent := Step(env, w, SendFile(id, file, metaBundle, bundles));
    SendIsSafe(env, w, id, file, metaBundle, bundles);
    MetaOpens(env, w.sealed, id, file, metaBundle, bundles);
    DeliverIsSafe(env, sent.files, sent.sealed, sent.rx, Frame(KIND_FILE_META, metaBundle));
    var announced := OnFrame(env, sent.sealed, sent.rx, Frame(KIND_FILE_META, metaBundle));
    assert |bundles| == TotalChunks(|file.content|, FILE_CHUNK_BYTES) by { TotalIsRight(file.content); }
    forall i: nat | i < |bundles|
      ensures Open(sent.sealed, bundles[i], ChunkAad(id, i, |bundles|)) ==
              Plain(ChunkAt(file.content, FILE_CHUNK_BYTES, i))
    {
      SealedChunks(w.sealed[(metaBundle, AadForKind(KIND_FILE_META)) :=
          env.dumps(FileMetaOf(env, id, file.filename, file.content))],
                   id, file.content, bundles, |bundles|, i);
    }
    MetaNamesItsFile(env, id, file);
    InOrder(env, sent.files, sent.sealed, announced, id, bundles, |bundles|);
  }

  lemma MetaOpens(env: Env, sealed: Ledger, id: string, file: File, metaBundle: bytes, bundles: seq<bytes>)
    requires IsFileId(id) && |bundles| == FileTotal(file.content)
    requires FreshBundles(env, sealed, id, file.filename, file.content, metaBundle, bundles)
    ensures Open(SealFile(env, sealed, id, file.filename, file.content, metaBundle, bundles), metaBundle,
            AadForKind(KIND_FILE_META)) ==
            Plain(env.dumps(FileMetaOf(env, id, file.filename, file.content)))
  {
    hide FileTotal, FileMetaOf, ChunkAt, ChunkAad;
    MetaSurvives(sealed[(metaBundle, AadForKind(KIND_FILE_META)) :=
        env.dumps(FileMetaOf(env, id, file.filename, file.content))],
                 id, file.content, metaBundle, bundles, |bundles|);
  }

  lemma {:induction false} MetaSurvives(sealed: Ledger, id: string, content: bytes, metaBundle: bytes,
        bundles: seq<bytes>, k: nat)
    requires IsFileId(id) && k <= FileTotal(content) == |bundles| && (metaBundle, AadForKind(KIND_FILE_META)) in sealed
    ensures (metaBundle, AadForKind(KIND_FILE_META)) in SealChunks(sealed, id, content, bundles, k)
    ensures SealChunks(sealed, id, content, bundles, k)[(metaBundle, AadForKind(KIND_FILE_META))] ==
            sealed[(metaBundle, AadForKind(KIND_FILE_META))]
  {
    hide TotalChunks, ChunkAt, AadForChunk;
    if k > 0 {
      MetaSurvives(sealed, id, content, metaBundle, bundles, k - 1);
      ChunkAadIsOk(id, k - 1, |bundles|);
      ChunkAadIsNoKindAad(id, k - 1, |bundles|, KIND_FILE_META);
    }
  }
}
