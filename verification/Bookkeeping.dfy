/** What the reader makes of any frames at all: which of them end the loop,
    what each is recorded as, and what the application hears of it. */
module Bookkeeping {
  import opened Basics
  import opened Encoding
  import opened Framing
  import opened FileTransfer
  import opened PeerLinks

  // ---------------------------------------------------------- reader and chat

  /** Too short to hold a nonce and a tag, where nobody catches the error. */
  predicate Fatal(f: Frame) {
    (f.kind == KIND_CHAT || f.kind == KIND_FILE_META || f.kind == KIND_CONTROL) && |f.payload| < BUNDLE_OVERHEAD
  }

  /** The frames up to the first fatal one. */
  function Survived(fs: seq<Frame>): (r: seq<Frame>)
    ensures r <= fs
  {
    if fs == [] then []
    else
      var init, last := fs[..|fs| - 1], fs[|fs| - 1];
      if Survived(init) == init && !Fatal(last) then fs else Survived(init)
  }

  lemma {:induction false} AllSurvive(fs: seq<Frame>)
    ensures Survived(fs) == fs <==> forall i :: 0 <= i < |fs| ==> !Fatal(fs[i])
  {
    if fs != [] {
      AllSurvive(fs[..|fs| - 1]);
      assert Survived(fs[..|fs| - 1]) != fs;
    }
  }

  predicate IsChatAnswer(e: Event) { e.ChatReceived? || e.ChatDecryptionFailed? }

  function ChatAnswers(events: seq<Event>): seq<Event> {
    if events == [] then []
    else
      var last := events[|events| - 1];
      ChatAnswers(events[..|events| - 1]) + if IsChatAnswer(last) then [last] else []
  }

  function ChatRecords(records: seq<Record>): seq<Record> {
    if records == [] then []
    else
      var last := records[|records| - 1];
      ChatRecords(records[..|records| - 1]) + if last.kind == KIND_CHAT then [last] else []
  }

  predicate IsSealedChat(sealed: Ledger, bundle: bytes) { (bundle, AadForKind(KIND_CHAT)) in sealed }

  /** What the application hears of a chat bundle. */
  function Answer(sealed: Ledger, bundle: bytes): Event {
    if IsSealedChat(sealed, bundle) then ChatReceived(sealed[(bundle, AadForKind(KIND_CHAT))], bundle)
    else ChatDecryptionFailed(bundle)
  }

  /** One answer for each chat frame, in order of arrival. */
  function Answers(sealed: Ledger, fs: seq<Frame>): seq<Event> {
    if fs == [] then []
    else
      var last := fs[|fs| - 1];
      Answers(sealed, fs[..|fs| - 1]) + if last.kind == KIND_CHAT then [Answer(sealed, last.payload)] else []
  }

  /** One record for each chat frame, in order of arrival. */
  function Observed(sealed: Ledger, fs: seq<Frame>): seq<Record> {
    if fs == [] then []
    else
      var last := fs[|fs| - 1];
      Observed(sealed, fs[..|fs| - 1]) +
      if last.kind == KIND_CHAT then [Record(KIND_CHAT, |last.payload|, IsSealedChat(sealed, last.payload))] else []
  }

  lemma AnswersSnoc(events: seq<Event>, e: Event)
    ensures ChatAnswers(events + [e]) == ChatAnswers(events) + if IsChatAnswer(e) then [e] else []
  {
    assert (events + [e])[..|events|] == events;
  }

  lemma RecordsSnoc(records: seq<Record>, r: Record)
    ensures ChatRecords(records + [r]) == ChatRecords(records) + if r.kind == KIND_CHAT then [r] else []
  {
    assert (records + [r])[..|records|] == records;
  }

  lemma FiringKeepsAnswers()
    ensures forall rx: Receiver, e: Event :: !IsChatAnswer(e) ==>
            ChatAnswers(Fire(rx, e).events) == ChatAnswers(rx.events)
  {
    forall rx: Receiver, e: Event | !IsChatAnswer(e)
      ensures ChatAnswers(Fire(rx, e).events) == ChatAnswers(rx.events)
    {
      AnswersSnoc(rx.events, e);
    }
  }

  lemma NotingKeepsRecords(rx: Receiver, kind: byte, payload: bytes, ok: bool)
    requires kind != KIND_CHAT
    ensures ChatRecords(Note(rx, kind, payload, ok).records) == ChatRecords(rx.records)
  {
    RecordsSnoc(rx.records, Record(kind, |payload|, ok));
  }

  lemma ChatFrame(sealed: Ledger, rx: Receiver, bundle: bytes)
    requires rx.alive
    ensures var r := OnChat(sealed, rx, bundle);
            && r.alive == (|bundle| >= BUNDLE_OVERHEAD)
            && ChatAnswers(r.events) == ChatAnswers(rx.events) + (if r.alive then [Answer(sealed, bundle)] else [])
            && ChatRecords(r.records) == ChatRecords(rx.records) +
                 if r.alive then [Record(KIND_CHAT, |bundle|, IsSealedChat(sealed, bundle))] else []
  {
    hide ChatAnswers, ChatRecords;
    if |bundle| >= BUNDLE_OVERHEAD {
      AnswersSnoc(rx.events, Answer(sealed, bundle));
      RecordsSnoc(rx.records, Record(KIND_CHAT, |bundle|, IsSealedChat(sealed, bundle)));
    } else {
      AnswersSnoc(rx.events, ErrorRaised);
    }
  }

  lemma FileChunkFrame(env: Env, sealed: Ledger, rx: Receiver, payload: bytes)
    ensures var r := OnFileChunk(env, sealed, rx, payload);
            && r.alive == rx.alive
            && ChatAnswers(r.events) == ChatAnswers(rx.events) && ChatRecords(r.records) == ChatRecords(rx.records)
  {
    hide ChatAnswers, ChatRecords, ParseChunkHeader, OpenChunk, AssembleChunks;
    FiringKeepsAnswers();
    NotingKeepsRecords(rx, KIND_FILE_CHUNK, payload, true);
    NotingKeepsRecords(rx, KIND_FILE_CHUNK, payload, false);
  }

  lemma OtherFrame(env: Env, sealed: Ledger, rx: Receiver, f: Frame)
    requires rx.alive && f.kind != KIND_CHAT
    ensures var r := OnFrame(env, sealed, rx, f);
            && r.alive == !Fatal(f)
            && ChatAnswers(r.events) == ChatAnswers(rx.events) && ChatRecords(r.records) == ChatRecords(rx.records)
  {
    hide ChatAnswers, ChatRecords, OnFileChunk;
    FiringKeepsAnswers();
    var counted := rx.(recvSeq := rx.recvSeq + 1);
    NotingKeepsRecords(counted, KIND_CONTROL, f.payload, true);
    NotingKeepsRecords(counted, KIND_CONTROL, f.payload, false);
    NotingKeepsRecords(counted, KIND_FILE_META, f.payload, true);
    NotingKeepsRecords(counted, KIND_FILE_META, f.payload, false);
    if f.kind == KIND_FILE_CHUNK { FileChunkFrame(env, sealed, rx, f.payload); }
  }

  /** Over any frames at all: the reader loop ends at the first fatal frame
      and nowhere else, and up to there every chat frame, and nothing else,
      has caused exactly one record and exactly one of received and
      decryption-failed, in order of arrival. */
  lemma {:induction false} EveryChatIsAnsweredOnce(env: Env, sealed: Ledger, rx: Receiver, fs: seq<Frame>)
    requires rx.alive
    ensures var r := OnFrames(env, sealed, rx, fs);
            && r.alive == (Survived(fs) == fs)
            && ChatAnswers(r.events) == ChatAnswers(rx.events) + Answers(sealed, Survived(fs))
            && ChatRecords(r.records) == ChatRecords(rx.records) + Observed(sealed, Survived(fs))
  {
    hide ChatAnswers, ChatRecords, OnChat, OnFileChunk, OnFileMeta, OnControl, Answer, IsSealedChat, Fatal;
    if fs != [] {
      var init, last := fs[..|fs| - 1], fs[|fs| - 1];
      EveryChatIsAnsweredOnce(env, sealed, rx, init);
      var before := OnFrames(env, sealed, rx, init);
      if before.alive {
        OneFrame(env, sealed, before, last);
        if Fatal(last) { assert Survived(fs) == init; }
      } else {
        assert Survived(fs) == Survived(init) != fs;
      }
    }
  }

  lemma OneFrame(env: Env, sealed: Ledger, rx: Receiver, f: Frame)
    requires rx.alive
    ensures var r := OnFrame(env, sealed, rx, f);
            var answered := f.kind == KIND_CHAT && !Fatal(f);
            && r.alive == !Fatal(f)
            && ChatAnswers(r.events) == ChatAnswers(rx.events) + (if answered then [Answer(sealed, f.payload)] else [])
            && ChatRecords(r.records) == ChatRecords(rx.records) +
                 if answered then [Record(KIND_CHAT, |f.payload|, IsSealedChat(sealed, f.payload))] else []
  {
    hide ChatAnswers, ChatRecords, OnChat, OnFileChunk, OnFileMeta, OnControl, Answer, IsSealedChat;
    if f.kind == KIND_CHAT {
      ChatFrame(sealed, rx, f.payload);
    } else {
      OtherFrame(env, sealed, rx, f);
    }
  }

  lemma {:induction false} OneAnswerEach(sealed: Ledger, fs: seq<Frame>)
    requires forall i :: 0 <= i < |fs| ==> fs[i].kind == KIND_CHAT
    ensures |Answers(sealed, fs)| == |Observed(sealed, fs)| == |fs|
    ensures forall i :: 0 <= i < |fs| ==>
              && Answers(sealed, fs)[i] == Answer(sealed, fs[i].payload)
              && Observed(sealed, fs)[i] == Record(KIND_CHAT, |fs[i].payload|, IsSealedChat(sealed, fs[i].payload))
  {
    if fs != [] { OneAnswerEach(sealed, fs[..|fs| - 1]); }
  }

  // ------------------------------------------------------------- every frame

  /** Sealed by a holder of the key, under what the frame itself claims: its
      kind, or the file, place and total in a chunk's header. */
  predicate IsGenuine(sealed: Ledger, f: Frame) {
    if f.kind == KIND_FILE_CHUNK then
      && |f.payload| >= CHUNK_HEADER_LEN + BUNDLE_OVERHEAD
      && var who := ParseChunkHeader(f.payload);
         who.index < who.total &&
         (f.payload[CHUNK_HEADER_LEN..], Ascii(ChunkLabel(who.fileId, who.index, who.total))) in sealed
    else |f.payload| >= BUNDLE_OVERHEAD && (f.payload, [f.kind]) in sealed
  }

  /** A chunk of a file the receiver is waiting for. */
  predicate IsPending(rx: Receiver, f: Frame) {
    && f.kind == KIND_FILE_CHUNK && |f.payload| >= CHUNK_HEADER_LEN
    && ParseChunkHeader(f.payload).fileId in rx.incoming
  }

  /** Chat, control and file-meta frames carry a number. */
  predicate IsNumbered(f: Frame) { f.kind == KIND_CHAT || f.kind == KIND_FILE_META || f.kind == KIND_CONTROL }

  /** The detector is told of every bundle somebody tried to open. */
  predicate IsRecorded(rx: Receiver, f: Frame) {
    if f.kind == KIND_FILE_CHUNK then IsPending(rx, f) else IsNumbered(f) && |f.payload| >= BUNDLE_OVERHEAD
  }

  function RecordsDue(sealed: Ledger, rx: Receiver, f: Frame): seq<Record> {
    if IsRecorded(rx, f) then [Record(f.kind, |f.payload|, IsGenuine(sealed, f))] else []
  }

  /** With this chunk the count is full although a place is empty. */
  predicate HasGap(rx: Receiver, f: Frame)
    requires IsPending(rx, f)
  {
    var who := ParseChunkHeader(f.payload);
    var places := rx.incoming[who.fileId].chunks.Keys + {who.index};
    |places| == who.total && exists i: nat :: i < who.total && i !in places
  }

  /** An announcement that opens and is readable. */
  predicate Announces(env: Env, sealed: Ledger, f: Frame) {
    f.kind == KIND_FILE_META && IsGenuine(sealed, f) && env.loads(sealed[(f.payload, [f.kind])]).Some?
  }

  /** A bundle that is too short or does not open, an unreadable announcement, a
      chunk that is too short, of no pending file or false, a file with a gap. */
  predicate Errs(env: Env, sealed: Ledger, rx: Receiver, f: Frame) {
    if f.kind == KIND_CHAT then |f.payload| < BUNDLE_OVERHEAD
    else if f.kind == KIND_CONTROL then !IsGenuine(sealed, f)
    else if f.kind == KIND_FILE_META then !Announces(env, sealed, f)
    else f.kind == KIND_FILE_CHUNK && (!IsPending(rx, f) || !IsGenuine(sealed, f) || HasGap(rx, f))
  }

  datatype Topic = Errors | Announcements | Chunks | Disconnects

  predicate IsAbout(topic: Topic, e: Event) {
    match topic
    case Errors => e.ErrorRaised?
    case Announcements => e.FileMetaReceived?
    case Chunks => e.FileChunkReceived?
    case Disconnects => e.PeerDisconnected?
  }

  function Select(topic: Topic, events: seq<Event>): seq<Event> {
    if events == [] then []
    else
      var last := events[|events| - 1];
      Select(topic, events[..|events| - 1]) + if IsAbout(topic, last) then [last] else []
  }

  /** What the application hears of one frame. */
  function NewsDue(topic: Topic, env: Env, sealed: Ledger, rx: Receiver, f: Frame): seq<Event> {
    match topic
    case Errors => if Errs(env, sealed, rx, f) then [ErrorRaised] else []
    case Announcements =>
      if Announces(env, sealed, f) then [FileMetaReceived(env.loads(sealed[(f.payload, [f.kind])]).value)] else []
    case Chunks =>
      if IsPending(rx, f) && IsGenuine(sealed, f) then
        var who := ParseChunkHeader(f.payload);
        [FileChunkReceived(who.fileId, who.index, who.total)]
      else []
    case Disconnects => []
  }

  lemma SelectSnoc(topic: Topic, events: seq<Event>, e: Event)
    ensures Select(topic, events + [e]) == Select(topic, events) + if IsAbout(topic, e) then [e] else []
  {
    assert (events + [e])[..|events|] == events;
  }

  /** Everything one frame does to a live reader's books. */
  predicate Accounted(env: Env, sealed: Ledger, rx: Receiver, f: Frame, r: Receiver) {
    && r.alive == !Fatal(f)
    && r.recvSeq == rx.recvSeq + (if IsNumbered(f) then 1 else 0)
    && r.records == rx.records + RecordsDue(sealed, rx, f)
    && (forall topic :: Select(topic, r.events) == Select(topic, rx.events) + NewsDue(topic, env, sealed, rx, f))
    && (!Announces(env, sealed, f) && !(IsPending(rx, f) && IsGenuine(sealed, f)) ==> r.incoming == rx.incoming)
    && (Announces(env, sealed, f) ==>
          var meta := env.loads(sealed[(f.payload, [f.kind])]).value;
          r.incoming == rx.incoming[meta.fileId := Incoming(meta, map[])])
  }

  lemma SelectAppends(events: seq<Event>, e: Event)
    ensures forall topic :: Select(topic, events + [e]) ==
                            Select(topic, events) + if IsAbout(topic, e) then [e] else []
    ensures events + [] == events && forall topic :: Select(topic, events) + [] == Select(topic, events)
  {
    forall topic
      ensures Select(topic, events + [e]) == Select(topic, events) + if IsAbout(topic, e) then [e] else []
    {
      SelectSnoc(topic, events, e);
    }
  }

  lemma OpensIffGenuine(sealed: Ledger, f: Frame)
    requires f.kind != KIND_FILE_CHUNK && |f.payload| >= BUNDLE_OVERHEAD
    ensures Open(sealed, f.payload, [f.kind]) ==
            if IsGenuine(sealed, f) then Plain(sealed[(f.payload, [f.kind])]) else InvalidTag
  {
  }

  lemma ChatAccount(env: Env, sealed: Ledger, rx: Receiver, f: Frame)
    requires rx.alive && f.kind == KIND_CHAT
    ensures Accounted(env, sealed, rx, f, OnFrame(env, sealed, rx, f))
  {
    hide Select, IsGenuine, Open;
    var b, counted := f.payload, rx.(recvSeq := rx.recvSeq + 1);
    if |b| < BUNDLE_OVERHEAD {
      TooShortToOpen(sealed, f);
      SelectAppends(rx.events, ErrorRaised);
    } else {
      OpensIffGenuine(sealed, f);
      var genuine := IsGenuine(sealed, f);
      var heard := if genuine then ChatReceived(Open(sealed, b, [f.kind]).plaintext, b) else ChatDecryptionFailed(b);
      SelectAppends(rx.events, heard);
    }
  }

  lemma TooShortToOpen(sealed: Ledger, f: Frame)
    requires f.kind != KIND_FILE_CHUNK && |f.payload| < BUNDLE_OVERHEAD
    ensures Open(sealed, f.payload, [f.kind]) == TooShort && !IsGenuine(sealed, f)
  {
  }

  lemma ControlAccount(env: Env, sealed: Ledger, rx: Receiver, f: Frame)
    requires rx.alive && f.kind == KIND_CONTROL
    ensures Accounted(env, sealed, rx, f, OnFrame(env, sealed, rx, f))
  {
    hide Select, IsGenuine, Open;
    var b, counted := f.payload, rx.(recvSeq := rx.recvSeq + 1);
    SelectAppends(rx.events, ErrorRaised);
    if |b| < BUNDLE_OVERHEAD {
      TooShortToOpen(sealed, f);
      SelectAppends(rx.events, ErrorRaised);
    } else {
      OpensIffGenuine(sealed, f);
      SelectAppends(rx.events, ErrorRaised);
    }
  }

  lemma AnnouncementAccount(env: Env, sealed: Ledger, rx: Receiver, f: Frame)
    requires rx.alive && f.kind == KIND_FILE_META
    ensures Accounted(env, sealed, rx, f, OnFrame(env, sealed, rx, f))
  {
    hide Select, IsGenuine, Open;
    var b, counted := f.payload, rx.(recvSeq := rx.recvSeq + 1);
    if |b| < BUNDLE_OVERHEAD {
      TooShortToOpen(sealed, f);
      SelectAppends(rx.events, ErrorRaised);
    } else {
      OpensIffGenuine(sealed, f);
      var noted := Note(counted, f.kind, b, IsGenuine(sealed, f));
      SelectAppends(rx.events, ErrorRaised);
      if Announces(env, sealed, f) {
        var meta := env.loads(Open(sealed, b, [f.kind]).plaintext).value;
        SelectAppends(rx.events, FileMetaReceived(meta));
      }
    }
  }

  lemma ChunkOpensIffGenuine(sealed: Ledger, f: Frame)
    requires f.kind == KIND_FILE_CHUNK && |f.payload| >= CHUNK_HEADER_LEN
    ensures OpenChunk(sealed, f.payload).Plain? <==> IsGenuine(sealed, f)
  {
    hide ParseChunkHeader, ChunkLabel;
  }

  /** Storing a genuine chunk: it is reported, and then perhaps an error, if it
      leaves a full count with a gap, or a completed file. */
  lemma StoringReports(env: Env, rx: Receiver, who: ChunkIdentity, chunk: bytes) returns (last: Option<Event>)
    requires who.fileId in rx.incoming && who.total >= 1
    ensures var r := AcceptChunk(env, rx, who, chunk);
            && r.alive == rx.alive && r.recvSeq == rx.recvSeq && r.records == rx.records
            && r.events == rx.events + [FileChunkReceived(who.fileId, who.index, who.total)] +
                           if last.Some? then [last.value] else []
    ensures last.Some? ==> last.value == ErrorRaised || last.value.FileComplete?
    ensures var places := rx.incoming[who.fileId].chunks.Keys + {who.index};
            last == Some(ErrorRaised) <==> |places| == who.total && exists i: nat :: i < who.total && i !in places
  {
    hide JoinChunks;
    var entry := rx.incoming[who.fileId];
    var chunks := entry.chunks[who.index := chunk];
    assert chunks.Keys == entry.chunks.Keys + {who.index} && |chunks| == |chunks.Keys|;
    last := None;
    if |chunks| == who.total {
      match AssembleChunks(who.total, chunks)
      case Err(_) => last := Some(ErrorRaised);
      case Ok(p) => last := Some(FileComplete(entry.meta, env.digest(p) == entry.meta.sha256, p));
    }
  }

  lemma StoringNews(env: Env, rx: Receiver, who: ChunkIdentity, chunk: bytes)
    requires who.fileId in rx.incoming && who.total >= 1
    ensures var r := AcceptChunk(env, rx, who, chunk);
            var places := rx.incoming[who.fileId].chunks.Keys + {who.index};
            var gap := |places| == who.total && exists i: nat :: i < who.total && i !in places;
            && r.alive == rx.alive && r.recvSeq == rx.recvSeq && r.records == rx.records
            && Select(Errors, r.events) == Select(Errors, rx.events) + (if gap then [ErrorRaised] else [])
            && Select(Announcements, r.events) == Select(Announcements, rx.events)
            && Select(Disconnects, r.events) == Select(Disconnects, rx.events)
            && Select(Chunks, r.events) == Select(Chunks, rx.events) +
                 [FileChunkReceived(who.fileId, who.index, who.total)]
  {
    hide Select, AcceptChunk;
    var last := StoringReports(env, rx, who, chunk);
    var reported := rx.events + [FileChunkReceived(who.fileId, who.index, who.total)];
    assert AcceptChunk(env, rx, who, chunk).events == reported + if last.Some? then [last.value] else [];
    SelectAppends(rx.events, FileChunkReceived(who.fileId, who.index, who.total));
    SelectAppends(reported, if last.Some? then last.value else ErrorRaised);
  }

  lemma ChunkAccount(env: Env, sealed: Ledger, rx: Receiver, f: Frame)
    requires rx.alive && f.kind == KIND_FILE_CHUNK
    ensures Accounted(env, sealed, rx, f, OnFrame(env, sealed, rx, f))
  {
    hide Accounted, IsPending, IsGenuine;
    if IsPending(rx, f) && IsGenuine(sealed, f) {
      StoredChunkAccount(env, sealed, rx, f);
    } else {
      RefusedChunkAccount(env, sealed, rx, f);
    }
  }

  lemma StoredChunkAccount(env: Env, sealed: Ledger, rx: Receiver, f: Frame)
    requires rx.alive && IsPending(rx, f) && IsGenuine(sealed, f)
    ensures Accounted(env, sealed, rx, f, OnFrame(env, sealed, rx, f))
  {
    hide Select, OpenChunk, AcceptChunk, ParseChunkHeader, ChunkLabel;
    ChunkOpensIffGenuine(sealed, f);
    StoringNews(env, Note(rx, f.kind, f.payload, true), ParseChunkHeader(f.payload),
                OpenChunk(sealed, f.payload).plaintext);
    SelectAppends(rx.events, ErrorRaised);
  }

  lemma RefusedChunkAccount(env: Env, sealed: Ledger, rx: Receiver, f: Frame)
    requires rx.alive && f.kind == KIND_FILE_CHUNK && !(IsPending(rx, f) && IsGenuine(sealed, f))
    ensures Accounted(env, sealed, rx, f, OnFrame(env, sealed, rx, f))
  {
    hide Select, OpenChunk, AcceptChunk, ParseChunkHeader, IsGenuine;
    if IsPending(rx, f) { ChunkOpensIffGenuine(sealed, f); }
    SelectAppends(rx.events, ErrorRaised);
  }

  lemma EveryFrameAccount(env: Env, sealed: Ledger, rx: Receiver, f: Frame)
    requires rx.alive
    ensures Accounted(env, sealed, rx, f, OnFrame(env, sealed, rx, f))
  {
    hide Select, OnFileChunk, OnFileMeta, OnChat, OnControl, IsGenuine, Accounted;
    if f.kind == KIND_CHAT {
      ChatAccount(env, sealed, rx, f);
    } else if f.kind == KIND_CONTROL {
      ControlAccount(env, sealed, rx, f);
    } else if f.kind == KIND_FILE_META {
      AnnouncementAccount(env, sealed, rx, f);
    } else if f.kind == KIND_FILE_CHUNK {
      ChunkAccount(env, sealed, rx, f);
    } else {
      UnknownAccount(env, sealed, rx, f);
    }
  }

  lemma UnknownAccount(env: Env, sealed: Ledger, rx: Receiver, f: Frame)
    requires rx.alive && !IsNumbered(f) && f.kind != KIND_FILE_CHUNK
    ensures Accounted(env, sealed, rx, f, OnFrame(env, sealed, rx, f))
  {
    hide Select;
    SelectAppends(rx.events, ErrorRaised);
  }

  /** The receiver before frame k of a list reaches it. */
  function BeforeFrame(env: Env, sealed: Ledger, rx: Receiver, fs: seq<Frame>, k: nat): Receiver
    requires k <= |fs|
  {
    OnFrames(env, sealed, rx, fs[..k])
  }

  function AllRecordsDue(env: Env, sealed: Ledger, rx: Receiver, fs: seq<Frame>, k: nat): seq<Record>
    requires k <= |fs|
  {
    if k == 0 then []
    else
      AllRecordsDue(env, sealed, rx, fs, k - 1) + RecordsDue(sealed, BeforeFrame(env, sealed, rx, fs, k - 1), fs[k - 1])
  }

  function AllNewsDue(topic: Topic, env: Env, sealed: Ledger, rx: Receiver, fs: seq<Frame>, k: nat): seq<Event>
    requires k <= |fs|
  {
    if k == 0 then []
    else
      AllNewsDue(topic, env, sealed, rx, fs, k - 1) +
      NewsDue(topic, env, sealed, BeforeFrame(env, sealed, rx, fs, k - 1), fs[k - 1])
  }

  /** How many of the first k frames carry a number. */
  function Numbered(fs: seq<Frame>, k: nat): nat
    requires k <= |fs|
  {
    if k == 0 then 0 else Numbered(fs, k - 1) + if IsNumbered(fs[k - 1]) then 1 else 0
  }

  /** Up to the first fatal frame and with it: how many frames are handled. */
  function Handled(fs: seq<Frame>): (n: nat)
    ensures n <= |fs|
  {
    if Survived(fs) == fs then |fs| else |Survived(fs)| + 1
  }

  lemma {:induction false} SurvivedMeaning(fs: seq<Frame>)
    ensures forall i :: 0 <= i < |Survived(fs)| ==> !Fatal(fs[i])
    ensures |Survived(fs)| < |fs| ==> Fatal(fs[|Survived(fs)|])
  {
    if fs != [] { SurvivedMeaning(fs[..|fs| - 1]); }
  }

  predicate AccountedUpTo(env: Env, sealed: Ledger, rx: Receiver, fs: seq<Frame>, k: nat)
    requires k <= |fs|
  {
    var r := BeforeFrame(env, sealed, rx, fs, k);
    && r.records == rx.records + AllRecordsDue(env, sealed, rx, fs, k)
    && (forall topic :: Select(topic, r.events) ==
                        Select(topic, rx.events) + AllNewsDue(topic, env, sealed, rx, fs, k))
    && r.recvSeq == rx.recvSeq + Numbered(fs, k)
  }

  lemma NextFrame(env: Env, sealed: Ledger, rx: Receiver, fs: seq<Frame>, k: nat)
    requires k < |fs|
    ensures BeforeFrame(env, sealed, rx, fs, k + 1) == OnFrame(env, sealed, BeforeFrame(env, sealed, rx, fs, k), fs[k])
  {
    hide OnFrame;
    assert fs[..k + 1][..k] == fs[..k];
  }

  lemma {:induction false} AccountsSoFar(env: Env, sealed: Ledger, rx: Receiver, fs: seq<Frame>, k: nat)
    requires k <= |fs| && (k > 0 ==> BeforeFrame(env, sealed, rx, fs, k - 1).alive)
    ensures AccountedUpTo(env, sealed, rx, fs, k)
  {
    hide OnFrame, OnFrames, RecordsDue, NewsDue, Select;
    if k == 0 {
      NothingYet(env, sealed, rx, fs);
    } else {
      NextFrame(env, sealed, rx, fs, k - 1);
      if k > 1 { NextFrame(env, sealed, rx, fs, k - 2); DeadStaysDead(env, sealed, rx, fs, k - 2); }
      AccountsSoFar(env, sealed, rx, fs, k - 1);
      EveryFrameAccount(env, sealed, BeforeFrame(env, sealed, rx, fs, k - 1), fs[k - 1]);
    }
  }

  lemma NothingYet(env: Env, sealed: Ledger, rx: Receiver, fs: seq<Frame>)
    ensures AccountedUpTo(env, sealed, rx, fs, 0)
  {
    hide Select;
    SelectAppends(rx.events, ErrorRaised);
    assert fs[..0] == [] && rx.records + [] == rx.records;
  }

  lemma DeadStaysDead(env: Env, sealed: Ledger, rx: Receiver, fs: seq<Frame>, k: nat)
    requires k < |fs| && BeforeFrame(env, sealed, rx, fs, k + 1).alive
    ensures BeforeFrame(env, sealed, rx, fs, k).alive
  {
    hide OnChat, OnFileMeta, OnFileChunk, OnControl, OnFrames;
    NextFrame(env, sealed, rx, fs, k);
  }

  /** The reader outlives frames exactly if none of them is fatal. */
  lemma AliveIffNoneFatal(env: Env, sealed: Ledger, rx: Receiver, fs: seq<Frame>, k: nat)
    requires rx.alive && k <= |fs|
    ensures BeforeFrame(env, sealed, rx, fs, k).alive <==> forall i :: 0 <= i < k ==> !Fatal(fs[i])
  {
    hide OnFrames, Fatal, Survived;
    EveryChatIsAnsweredOnce(env, sealed, rx, fs[..k]);
    AllSurvive(fs[..k]);
    assert forall i :: 0 <= i < k ==> fs[..k][i] == fs[i];
  }

  lemma AliveBeforeHandled(env: Env, sealed: Ledger, rx: Receiver, fs: seq<Frame>)
    requires rx.alive
    ensures var n := Handled(fs);
            && (n > 0 ==> BeforeFrame(env, sealed, rx, fs, n - 1).alive)
            && OnFrames(env, sealed, rx, fs) == BeforeFrame(env, sealed, rx, fs, n)
  {
    hide OnFrames, Fatal, Survived;
    var n := Handled(fs);
    SurvivedMeaning(fs);
    if n > 0 { AliveIffNoneFatal(env, sealed, rx, fs, n - 1); }
    if n < |fs| {
      AliveIffNoneFatal(env, sealed, rx, fs, n);
      EndedReaderSeesNothing(env, sealed, rx, fs[..n], fs[n..]);
      assert fs[..n] + fs[n..] == fs;
    } else {
      assert fs[..n] == fs;
    }
  }

  /** Over any run of frames: each handled frame adds the records, the errors,
      the announcements and the chunk reports due for it in the state it meets,
      in order, and nothing else does; the sequence number counts the chat,
      file-meta and control frames. */
  lemma EveryFrameIsAccountedFor(env: Env, sealed: Ledger, rx: Receiver, fs: seq<Frame>)
    requires rx.alive
    ensures var r, n := OnFrames(env, sealed, rx, fs), Handled(fs);
            && r.records == rx.records + AllRecordsDue(env, sealed, rx, fs, n)
            && (forall topic :: Select(topic, r.events) ==
                                Select(topic, rx.events) + AllNewsDue(topic, env, sealed, rx, fs, n))
            && r.recvSeq == rx.recvSeq + Numbered(fs, n)
  {
    hide OnFrames, Handled, Select;
    AliveBeforeHandled(env, sealed, rx, fs);
    AccountsSoFar(env, sealed, rx, fs, Handled(fs));
  }

  /** How reading ends, once the stream has: with the one disconnect if no frame
      was fatal, and otherwise with the error of the first that was. */
  lemma ReadingEndsOnce(env: Env, sealed: Ledger, rx: Receiver, fs: seq<Frame>)
    requires rx.alive
    ensures var r := Disconnect(OnFrames(env, sealed, rx, fs));
            && !r.alive && r.events != []
            && if forall i :: 0 <= i < |fs| ==> !Fatal(fs[i]) then
                 && r.events[|r.events| - 1] == PeerDisconnected
                 && Select(Disconnects, r.events) == Select(Disconnects, rx.events) + [PeerDisconnected]
               else
                 && r.events[|r.events| - 1] == ErrorRaised
                 && Select(Disconnects, r.events) == Select(Disconnects, rx.events)
  {
    hide OnFrames, Select, Handled, Fatal, AllNewsDue, AllRecordsDue, Numbered, IsAbout;
    var n, r := Handled(fs), OnFrames(env, sealed, rx, fs);
    assert fs[..|fs|] == fs;
    assert IsAbout(Disconnects, PeerDisconnected) by { AboutDisconnects(); }
    AliveIffNoneFatal(env, sealed, rx, fs, |fs|);
    EveryFrameIsAccountedFor(env, sealed, rx, fs);
    NoDisconnectsDue(env, sealed, rx, fs, n);
    SelectAppends(rx.events, PeerDisconnected);
    SelectAppends(r.events, PeerDisconnected);
    if !r.alive { LastHandled(env, sealed, rx, fs); }
  }

  lemma AboutDisconnects()
    ensures IsAbout(Disconnects, PeerDisconnected)
  {
  }

  lemma {:induction false} NoDisconnectsDue(env: Env, sealed: Ledger, rx: Receiver, fs: seq<Frame>, k: nat)
    requires k <= |fs|
    ensures AllNewsDue(Disconnects, env, sealed, rx, fs, k) == []
  {
    hide OnFrames;
    if k > 0 { NoDisconnectsDue(env, sealed, rx, fs, k - 1); }
  }

  lemma LastHandled(env: Env, sealed: Ledger, rx: Receiver, fs: seq<Frame>)
    requires rx.alive && !OnFrames(env, sealed, rx, fs).alive
    ensures var events := OnFrames(env, sealed, rx, fs).events;
            events != [] && events[|events| - 1] == ErrorRaised
  {
    hide OnFrames, OnFrame, Handled, Fatal;
    var n := Handled(fs);
    AliveBeforeHandled(env, sealed, rx, fs);
    assert n > 0 by { if n == 0 { assert fs[..0] == []; StillThere(env, sealed, rx); } }
    NextFrame(env, sealed, rx, fs, n - 1);
    LastWords(env, sealed, BeforeFrame(env, sealed, rx, fs, n - 1), fs[n - 1]);
  }

  lemma StillThere(env: Env, sealed: Ledger, rx: Receiver)
    ensures OnFrames(env, sealed, rx, []) == rx
  {
  }

  lemma LastWords(env: Env, sealed: Ledger, rx: Receiver, f: Frame)
    requires rx.alive && !OnFrame(env, sealed, rx, f).alive
    ensures var events := OnFrame(env, sealed, rx, f).events;
            events != [] && events[|events| - 1] == ErrorRaised
  {
    hide OpenChunk, AssembleChunks, ParseChunkHeader;
  }
}
