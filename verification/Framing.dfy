/** core/transport_tcp.py: length-prefixed frames over a byte stream that may
    arrive in any pieces, read by one reader, written by locked senders. */
module Framing {
  import opened Basics

  const KIND_TAU: byte := 0x01
  const KIND_FINGERPRINT: byte := 0x02
  const KIND_SEED: byte := 0x03
  const KIND_CHAT: byte := 0x10
  const KIND_FILE_CHUNK: byte := 0x11
  const KIND_FILE_META: byte := 0x12
  const KIND_CONTROL: byte := 0x20

  const HEADER_LEN := 5

  datatype Frame = Frame(kind: byte, payload: bytes)

  /** The length field has four bytes. */
  predicate Sendable(f: Frame) { |f.payload| < 0x1_0000_0000 }

  // ---------------------------------------------------------------- encoding

  /** Four bytes, big end first. */
  function BE32(n: nat): (b: bytes)
    requires n < 0x1_0000_0000
    ensures |b| == 4
  {
    [n / 0x100_0000, n / 0x1_0000 % 256, n / 0x100 % 256, n % 256]
  }

  function FromBE32(b: bytes): nat
    requires |b| == 4
  {
    (((b[0] as int) * 256 + b[1]) * 256 + b[2]) * 256 + b[3]
  }

  lemma BE32RoundTrip(n: nat)
    requires n < 0x1_0000_0000
    ensures FromBE32(BE32(n)) == n && IsBigEndian(BE32(n), n)
  {
    var high := n / 0x100;
    var higher := high / 0x100;
    assert n / 0x1_0000 == higher && n / 0x100_0000 == higher / 0x100;
    assert high == higher * 256 + high % 256 && higher == higher / 256 * 256 + higher % 256;
  }

  /** The first byte weighs most. */
  predicate IsBigEndian(b: bytes, n: nat) {
    |b| == 4 && n == (b[0] as int) * 0x100_0000 + (b[1] as int) * 0x1_0000 + (b[2] as int) * 0x100 + b[3]
  }

  function Encode(f: Frame): bytes
    requires Sendable(f)
  {
    [f.kind] + BE32(|f.payload|) + f.payload
  }

  /** Kind, then the big-endian length, then the payload. */
  lemma FrameLayout(f: Frame)
    requires Sendable(f)
    ensures var e := Encode(f);
            && |e| == HEADER_LEN + |f.payload|
            && e[0] == f.kind && IsBigEndian(e[1..5], |f.payload|) && e[5..] == f.payload
  {
    BE32RoundTrip(|f.payload|);
    assert Encode(f)[1..5] == BE32(|f.payload|);
  }

  function EncodeAll(fs: seq<Frame>): bytes
    requires forall f :: f in fs ==> Sendable(f)
  {
    if fs == [] then [] else Encode(fs[0]) + EncodeAll(fs[1..])
  }

  datatype Parsed = Got(frame: Frame, rest: bytes) | Cut

  /** One frame off the front of the stream, if all of it is there. */
  function Parse(s: bytes): (p: Parsed)
    ensures p.Got? ==> |p.rest| < |s|
  {
    if |s| < HEADER_LEN then Cut
    else
      var n := FromBE32(s[1..5]);
      if |s| < HEADER_LEN + n then Cut
      else Got(Frame(s[0], s[5..5 + n]), s[5 + n..])
  }

  /** Every complete frame of the stream. */
  function ParseAll(s: bytes): seq<Frame>
    decreases |s|
  {
    match Parse(s)
    case Cut => []
    case Got(f, rest) => [f] + ParseAll(rest)
  }

  lemma ParseOne(f: Frame, rest: bytes)
    requires Sendable(f)
    ensures Parse(Encode(f) + rest) == Got(f, rest)
  {
    var s := Encode(f) + rest;
    BE32RoundTrip(|f.payload|);
    assert s[1..5] == BE32(|f.payload|);
    assert s[5..5 + |f.payload|] == f.payload;
    assert s[5 + |f.payload|..] == rest;
  }

  /** Anything short of a whole frame gives no frame. */
  lemma ParsePartial(f: Frame, n: nat)
    requires Sendable(f) && n < |Encode(f)|
    ensures Parse(Encode(f)[..n]) == Cut
  {
    if n >= HEADER_LEN {
      BE32RoundTrip(|f.payload|);
      assert Encode(f)[..n][1..5] == BE32(|f.payload|);
    }
  }

  /** Whole frames followed by a proper part of one read back as the whole
      frames, in order, and nothing else. */
  lemma {:induction false} ReadsBack(fs: seq<Frame>, tail: bytes)
    requires (forall f :: f in fs ==> Sendable(f)) && Parse(tail) == Cut
    ensures ParseAll(EncodeAll(fs) + tail) == fs
  {
    hide Encode, Parse;
    if fs == [] {
      assert EncodeAll(fs) + tail == tail;
    } else {
      var more := EncodeAll(fs[1..]) + tail;
      ReadsBack(fs[1..], tail);
      ParseOne(fs[0], more);
      assert EncodeAll(fs) + tail == Encode(fs[0]) + more;
    }
  }

  lemma NothingParses()
    ensures ParseAll([]) == []
  {
  }

  lemma EncodeCons(f: Frame, rest: seq<Frame>)
    requires Sendable(f) && forall g :: g in rest ==> Sendable(g)
    ensures EncodeAll([f] + rest) == Encode(f) + EncodeAll(rest)
  {
    hide Encode;
    assert ([f] + rest)[1..] == rest;
  }

  lemma FirstEncoded(fs: seq<Frame>, k: nat)
    requires (forall f :: f in fs ==> Sendable(f)) && fs != [] && k < |fs|
    ensures EncodeAll(fs) == Encode(fs[0]) + EncodeAll(fs[1..])
    ensures EncodeAll(fs[..k + 1]) == Encode(fs[0]) + EncodeAll(fs[1..][..k])
    ensures fs[..k + 1] == [fs[0]] + fs[1..][..k]
  {
    hide Encode, EncodeAll;
    assert fs == [fs[0]] + fs[1..] && fs[..k + 1] == [fs[0]] + fs[1..][..k];
    EncodeCons(fs[0], fs[1..]);
    EncodeCons(fs[0], fs[1..][..k]);
  }

  lemma NothingEncoded(fs: seq<Frame>)
    ensures fs[..0] == [] && EncodeAll(fs[..0]) == []
  {
  }

  /** A stream cut after n bytes yields exactly the frames that end by then. */
  lemma {:induction false} CutStream(fs: seq<Frame>, n: nat) returns (k: nat)
    requires (forall f :: f in fs ==> Sendable(f)) && n <= |EncodeAll(fs)|
    ensures k <= |fs| && |EncodeAll(fs[..k])| <= n
    ensures k < |fs| ==> n < |EncodeAll(fs[..k + 1])|
    ensures ParseAll(EncodeAll(fs)[..n]) == fs[..k]
  {
    hide Encode, EncodeAll, Parse;
    k := 0;
    NothingEncoded(fs);
    if fs == [] {
      NothingParses();
      assert EncodeAll(fs)[..n] == [];
    } else {
      FirstEncoded(fs, 0);
      NothingEncoded(fs[1..]);
      var first, rest := Encode(fs[0]), fs[1..];
      if n < |first| {
        ParsePartial(fs[0], n);
        assert EncodeAll(fs)[..n] == first[..n];
      } else {
        var j := CutStream(rest, n - |first|);
        k := j + 1;
        FirstEncoded(fs, j);
        if k < |fs| { FirstEncoded(fs, k); }
        ParseOne(fs[0], EncodeAll(rest)[..n - |first|]);
        assert EncodeAll(fs)[..n] == first + EncodeAll(rest)[..n - |first|];
      }
    }
  }

  lemma {:induction false} EncodeAllAppends(fs: seq<Frame>, gs: seq<Frame>)
    requires (forall f :: f in fs ==> Sendable(f)) && (forall f :: f in gs ==> Sendable(f))
    ensures EncodeAll(fs + gs) == EncodeAll(fs) + EncodeAll(gs)
  {
    hide Encode;
    if fs == [] {
      assert fs + gs == gs;
      assert [] + EncodeAll(gs) == EncodeAll(gs);
    } else {
      EncodeAllAppends(fs[1..], gs);
      assert (fs + gs)[1..] == fs[1..] + gs;
      Associate(Encode(fs[0]), EncodeAll(fs[1..]), EncodeAll(gs));
    }
  }

  // ------------------------------------------------------------------ reader

  datatype NetError = TimedOut | Disconnected

  /** What the operating system will do at the next read: deliver up to so
      many bytes, or stay quiet until the timeout. */
  datatype ReadEvent = Deliver(n: nat) | Quiet

  class Socket {
    /** Everything the peer has sent and will send before closing. */
    var stream: bytes
    var script: seq<ReadEvent>
    const hasTimeout: bool

    constructor (stream: bytes, script: seq<ReadEvent>, hasTimeout: bool)
      ensures this.stream == stream && this.script == script && this.hasTimeout == hasTimeout
    {
      this.stream, this.script, this.hasTimeout := stream, script, hasTimeout;
    }

    /** At least one byte and at most n; nothing only when the peer has closed. */
    method Recv(n: nat) returns (r: Result<bytes, NetError>)
      requires n > 0
      modifies this
      ensures r.Ok? ==> |r.value| <= n && |r.value| <= |old(stream)| && (r.value == [] <==> old(stream) == [])
      ensures r.Ok? ==> r.value == old(stream)[..|r.value|] && stream == old(stream)[|r.value|..]
      ensures r.Err? ==> r.error == TimedOut && hasTimeout && stream == old(stream)
    {
      var take := n;
      if script != [] {
        var event := script[0];
        script := script[1..];
        if event == Quiet && hasTimeout {
          return Err(TimedOut);
        }
        if event.Deliver? && 0 < event.n < n {
          take := event.n;
        }
      }
      if take > |stream| {
        take := |stream|;
      }
      var chunk := stream[..take];
      stream := stream[take..];
      return Ok(chunk);
    }
  }

  /** The first frame of the stream that the inbound hooks let through, and
      the stream behind it. */
  function FirstDelivered(hook: Frame -> Option<Frame>, s: bytes): (p: Parsed)
    decreases |s|
  {
    match Parse(s)
    case Cut => Cut
    case Got(f, rest) =>
      match hook(f)
      case None => FirstDelivered(hook, rest)
      case Some(g) => Got(g, rest)
  }

  /** t is what is left of s after reading from its front. */
  predicate IsRest(t: bytes, s: bytes) { |t| <= |s| && t == s[|s| - |t|..] }

  lemma RestOfRest(u: bytes, t: bytes, s: bytes)
    requires IsRest(u, t) && IsRest(t, s)
    ensures IsRest(u, s)
  {
  }

  lemma DropIsRest(s: bytes, k: nat)
    requires k <= |s|
    ensures IsRest(s[k..], s)
  {
  }

  lemma EndsAreRests(s: bytes, t: bytes)
    requires t == [] || exists k :: 0 <= k <= |s| && t == s[k..]
    ensures IsRest(t, s)
  {
    if t == [] { assert s[|s|..] == []; }
  }

  /** One frame, byte by byte. */
  lemma ParseByBytes(s: bytes)
    ensures |s| < HEADER_LEN ==> Parse(s) == Cut
    ensures |s| >= HEADER_LEN ==>
              var n := FromBE32(s[..5][1..5]);
              if |s[5..]| < n then Parse(s) == Cut
              else Parse(s) == Got(Frame(s[..5][0], s[5..][..n]), s[5..][n..]) && IsRest(s[5..][n..], s)
  {
    if |s| >= HEADER_LEN {
      assert s[..5][1..5] == s[1..5];
      var n := FromBE32(s[1..5]);
      if |s| >= HEADER_LEN + n { assert s[5..][..n] == s[5..5 + n] && s[5..][n..] == s[5 + n..]; }
    }
  }

  /** The frames a list of hooks' outcomes lets through, as they leave it. */
  function Filtered(hook: Frame -> Option<Frame>, fs: seq<Frame>): seq<Frame> {
    if fs == [] then []
    else
      var g := hook(fs[0]);
      (if g.Some? then [g.value] else []) + Filtered(hook, fs[1..])
  }

  function Passed(hook: Frame -> Option<Frame>, f: Frame): seq<Frame> {
    if hook(f).Some? then [hook(f).value] else []
  }

  lemma FilteredCons(hook: Frame -> Option<Frame>, f: Frame, fs: seq<Frame>)
    ensures Filtered(hook, [f] + fs) == Passed(hook, f) + Filtered(hook, fs)
  {
    assert ([f] + fs)[1..] == fs;
  }

  /** Frame by frame: what the hooks drop is not handed on, what they pass on
      is, as they leave it, and behind all that came before. */
  lemma {:induction false} FilteredSnoc(hook: Frame -> Option<Frame>, fs: seq<Frame>, f: Frame)
    ensures Filtered(hook, []) == []
    ensures Filtered(hook, fs + [f]) == Filtered(hook, fs) + if hook(f).Some? then [hook(f).value] else []
  {
    if fs == [] {
      assert [] + [f] == [f] + [];
      FilteredCons(hook, f, []);
    } else {
      var rest := fs[1..];
      FilteredSnoc(hook, rest, f);
      hide Filtered;
      assert fs == [fs[0]] + rest && fs + [f] == [fs[0]] + (rest + [f]);
      FilteredCons(hook, fs[0], rest);
      FilteredCons(hook, fs[0], rest + [f]);
      Associate(Passed(hook, fs[0]), Filtered(hook, rest), Passed(hook, f));
    }
  }

  /** Everything the reader of a stream is ever handed. */
  function Delivered(hook: Frame -> Option<Frame>, s: bytes): seq<Frame> { Filtered(hook, ParseAll(s)) }

  lemma ParseStep(s: bytes)
    ensures match Parse(s)
            case Cut => ParseAll(s) == []
            case Got(f, rest) => ParseAll(s) == [f] + ParseAll(rest) && ParseAll(s)[1..] == ParseAll(rest)
  {
    hide Parse;
  }

  /** Reading one frame at a time goes through that list in order. */
  lemma {:induction false} FirstOfDelivered(hook: Frame -> Option<Frame>, s: bytes)
    ensures match FirstDelivered(hook, s)
            case Cut => Delivered(hook, s) == []
            case Got(g, rest) => Delivered(hook, s) == [g] + Delivered(hook, rest)
    decreases |s|
  {
    hide Parse;
    ParseStep(s);
    match Parse(s)
    case Cut =>
    case Got(f, rest) => if hook(f).None? { FirstOfDelivered(hook, rest); }
  }

  function PassOn(f: Frame): Option<Frame> { Some(f) }

  lemma {:induction false} NothingFiltered(fs: seq<Frame>)
    ensures Filtered(PassOn, fs) == fs
  {
    if fs != [] { NothingFiltered(fs[1..]); }
  }

  /** The round trip: of what was encoded and then cut after n bytes, a reader
      is handed the frames that end by then, as its hooks leave them; without
      hooks just those frames, and all of them if nothing was cut. */
  lemma StreamIsDelivered(hook: Frame -> Option<Frame>, fs: seq<Frame>, n: nat) returns (k: nat)
    requires (forall f :: f in fs ==> Sendable(f)) && n <= |EncodeAll(fs)|
    ensures k <= |fs| && |EncodeAll(fs[..k])| <= n && (k < |fs| ==> n < |EncodeAll(fs[..k + 1])|)
    ensures n == |EncodeAll(fs)| ==> k == |fs|
    ensures Delivered(hook, EncodeAll(fs)[..n]) == Filtered(hook, fs[..k])
    ensures Delivered(PassOn, EncodeAll(fs)[..n]) == fs[..k]
  {
    k := CutStream(fs, n);
    NothingFiltered(fs[..k]);
    if n == |EncodeAll(fs)| {
      NothingCut();
      ReadsBack(fs, []);
      assert EncodeAll(fs)[..n] == EncodeAll(fs) + [];
    }
  }

  lemma NothingCut()
    ensures Parse([]) == Cut
  {
  }

  class TcpTransport {
    const sock: Socket
    const inboundHook: Frame -> Option<Frame>
    var closed: bool

    constructor (sock: Socket, inboundHook: Frame -> Option<Frame>)
      ensures this.sock == sock && this.inboundHook == inboundHook && !closed
    {
      this.sock, this.inboundHook, closed := sock, inboundHook, false;
    }

    /** Exactly n bytes, however the stream arrives; a stream that ends first
        is a disconnect; a timeout loses the bytes already read. */
    method RecvExact(n: nat) returns (r: Result<bytes, NetError>)
      modifies this, sock
      ensures match r
              case Ok(b) =>
                n <= |old(sock.stream)| && b == old(sock.stream)[..n] && sock.stream == old(sock.stream)[n..] &&
                closed == old(closed)
              case Err(Disconnected) => |old(sock.stream)| < n && sock.stream == [] && closed
              case Err(TimedOut) =>
                sock.hasTimeout && closed == old(closed) &&
                exists k :: 0 <= k < n && k <= |old(sock.stream)| && sock.stream == old(sock.stream)[k..]
    {
      var buf: bytes := [];
      while |buf| < n
        invariant |buf| <= n && |buf| <= |old(sock.stream)|
        invariant buf == old(sock.stream)[..|buf|] && sock.stream == old(sock.stream)[|buf|..]
        invariant closed == old(closed)
        decreases n - |buf|
      {
        var chunk := sock.Recv(n - |buf|);
        if chunk.Err? {
          return Err(TimedOut);
        }
        if chunk.value == [] {
          closed := true;
          return Err(Disconnected);
        }
        buf := buf + chunk.value;
      }
      return Ok(buf);
    }

    /** One frame off the stream, whatever the hooks will say. */
    method RecvRaw() returns (r: Result<Frame, NetError>)
      modifies this, sock
      ensures match r
              case Ok(f) => Parse(old(sock.stream)) == Got(f, sock.stream) && closed == old(closed)
              case Err(Disconnected) => Parse(old(sock.stream)) == Cut && closed && sock.stream == []
              case Err(TimedOut) => sock.hasTimeout && closed == old(closed)
      ensures IsRest(sock.stream, old(sock.stream))
    {
      hide Parse, FromBE32, IsRest;
      ghost var s := sock.stream;
      ParseByBytes(s);
      DropIsRest(s, |s|);
      var header := RecvExact(HEADER_LEN);
      if header.Err? {
        EndsAreRests(s, sock.stream);
        return Err(header.error);
      }
      DropIsRest(s, HEADER_LEN);
      var kind, length := header.value[0], FromBE32(header.value[1..5]);
      ghost var t := sock.stream;
      var payload := Ok([]);
      if length > 0 {
        payload := RecvExact(length);
      }
      if payload.Err? {
        EndsAreRests(t, sock.stream);
        RestOfRest(sock.stream, t, s);
        return Err(payload.error);
      }
      return Ok(Frame(kind, payload.value));
    }

    /** The next frame the hooks let through; or a disconnect once the stream
        has no complete such frame left, in which case it is used up; or a
        timeout, which may have cost part of a frame. */
    method RecvFrame() returns (r: Result<Frame, NetError>)
      modifies this, sock
      ensures match r
              case Ok(f) =>
                FirstDelivered(inboundHook, old(sock.stream)) == Got(f, sock.stream) && closed == old(closed)
              case Err(Disconnected) =>
                FirstDelivered(inboundHook, old(sock.stream)) == Cut && closed && sock.stream == []
              case Err(TimedOut) => sock.hasTimeout && closed == old(closed)
      ensures IsRest(sock.stream, old(sock.stream)) && (r.Ok? ==> |sock.stream| < |old(sock.stream)|)
    {
      DropIsRest(sock.stream, 0);
      while true
        invariant FirstDelivered(inboundHook, old(sock.stream)) == FirstDelivered(inboundHook, sock.stream)
        invariant IsRest(sock.stream, old(sock.stream)) && closed == old(closed)
        decreases |sock.stream|
      {
        hide Parse;
        ghost var s := sock.stream;
        var raw := RecvRaw();
        RestOfRest(sock.stream, s, old(sock.stream));
        if raw.Err? {
          return raw;
        }
        var delivered := inboundHook(raw.value);
        if delivered.Some? {
          return Ok(delivered.value);
        }
      }
    }

    /** Reads frames until a read fails.  Without a timeout the reader is handed
        exactly the frames the hooks let through, however the stream was split
        into reads, and then the disconnect; with one, a prefix of them. */
    method ReadAll() returns (frames: seq<Frame>, error: NetError)
      modifies this, sock
      ensures error == Disconnected ==>
                frames == Delivered(inboundHook, old(sock.stream)) && closed && sock.stream == []
      ensures error == TimedOut ==> sock.hasTimeout && frames <= Delivered(inboundHook, old(sock.stream))
    {
      frames := [];
      while true
        invariant Delivered(inboundHook, old(sock.stream)) == frames + Delivered(inboundHook, sock.stream)
        decreases |sock.stream|
      {
        FirstOfDelivered(inboundHook, sock.stream);
        var next := RecvFrame();
        if next.Err? {
          return frames, next.error;
        }
        frames := frames + [next.value];
      }
    }
  }

  // ----------------------------------------------------------------- senders

  datatype Owned = Owned(sender: nat, frame: Frame)

  /** Senders sharing one socket.  `pending` is what each still has to send;
      `holder` is the frame in the locked `sendall` with the bytes already
      out; `done` lists completed frames in the order the lock was held. */
  datatype Senders = Senders(pending: map<nat, seq<Frame>>, holder: Option<(Owned, nat)>, done: seq<Owned>, wire: bytes)

  datatype SendAction = Acquire(sender: nat) | Write(n: nat)

  predicate AllSendable(pending: map<nat, seq<Frame>>) {
    forall id :: id in pending ==> forall f :: f in pending[id] ==> Sendable(f)
  }

  predicate SendersOk(s: Senders) {
    && AllSendable(s.pending)
    && (forall o :: o in s.done ==> Sendable(o.frame))
    && (s.holder.Some? ==> Sendable(s.holder.value.0.frame) && s.holder.value.1 < |Encode(s.holder.value.0.frame)|)
  }

  /** One scheduling step; an action that cannot happen changes nothing. */
  function SendStep(s: Senders, act: SendAction): (r: Senders)
    requires SendersOk(s)
    ensures SendersOk(r)
  {
    match act
    case Acquire(id) =>
      if s.holder.None? && id in s.pending && s.pending[id] != [] then
        s.(holder := Some((Owned(id, s.pending[id][0]), 0)), pending := s.pending[id := s.pending[id][1..]])
      else s
    case Write(n) =>
      if s.holder.Some? then
        var (o, out) := s.holder.value;
        var all := Encode(o.frame);
        if out + n < |all| then s.(holder := Some((o, out + n)), wire := s.wire + all[out..out + n])
        else s.(holder := None, done := s.done + [o], wire := s.wire + all[out..])
      else s
  }

  function SendRun(s: Senders, acts: seq<SendAction>): (r: Senders)
    requires SendersOk(s)
    ensures SendersOk(r)
  {
    if acts == [] then s else SendStep(SendRun(s, acts[..|acts| - 1]), acts[|acts| - 1])
  }

  function Frames(done: seq<Owned>): (fs: seq<Frame>)
    ensures |fs| == |done| && forall i :: 0 <= i < |fs| ==> fs[i] == done[i].frame
  {
    seq(|done|, i requires 0 <= i < |done| => done[i].frame)
  }

  /** The completed frames of one sender, in order. */
  function SentBy(done: seq<Owned>, id: nat): seq<Frame> {
    if done == [] then []
    else SentBy(done[..|done| - 1], id) + if done[|done| - 1].sender == id then [done[|done| - 1].frame] else []
  }

  /** What one sender has sent, is sending and has yet to send. */
  function Account(s: Senders, id: nat): seq<Frame>
    requires id in s.pending
  {
    SentBy(s.done, id) +
    (if s.holder.Some? && s.holder.value.0.sender == id then [s.holder.value.0.frame] else []) + s.pending[id]
  }

  predicate WireOk(s: Senders)
    requires SendersOk(s)
  {
    s.wire == EncodeAll(Frames(s.done)) +
              if s.holder.Some? then Encode(s.holder.value.0.frame)[..s.holder.value.1] else []
  }

  lemma WireStep(s: Senders, act: SendAction)
    requires SendersOk(s) && WireOk(s)
    ensures WireOk(SendStep(s, act))
  {
    hide Encode, EncodeAll, Frames;
    if act.Write? && s.holder.Some? {
      var (o, out) := s.holder.value;
      var all, n := Encode(o.frame), out + act.n;
      Pieces(EncodeAll(Frames(s.done)), all, out, if n < |all| then n else |all|);
      if n >= |all| { OneMoreDone(s.done, o); }
    } else if act.Acquire? && SendStep(s, act) != s {
      Pieces(EncodeAll(Frames(s.done)), Encode(s.pending[act.sender][0]), 0, 0);
    }
  }

  lemma Pieces(sent: bytes, all: bytes, from: nat, to: nat)
    requires from <= to <= |all|
    ensures (sent + all[..from]) + all[from..to] == sent + all[..to]
    ensures all[..|all|] == all && all[from..|all|] == all[from..] && all[..0] == [] && sent + [] == sent
  {
  }

  lemma OneMoreDone(done: seq<Owned>, o: Owned)
    requires Sendable(o.frame) && forall p :: p in done ==> Sendable(p.frame)
    ensures forall f :: f in Frames(done + [o]) ==> Sendable(f)
    ensures forall f :: f in Frames(done) ==> Sendable(f)
    ensures EncodeAll(Frames(done + [o])) == EncodeAll(Frames(done)) + Encode(o.frame)
  {
    hide Encode;
    assert Frames(done + [o]) == Frames(done) + [o.frame];
    EncodeAllAppends(Frames(done), [o.frame]);
    assert [o.frame][1..] == [];
    assert EncodeAll([o.frame]) == Encode(o.frame) + [];
  }

  lemma AccountStep(s: Senders, act: SendAction, id: nat)
    requires SendersOk(s) && id in s.pending
    ensures id in SendStep(s, act).pending && Account(SendStep(s, act), id) == Account(s, id)
  {
    var t := SendStep(s, act);
    if act.Write? && s.holder.Some? && t.holder.None? {
      assert t.done[..|t.done| - 1] == s.done;
    } else if act.Acquire? && t != s && act.sender == id {
      assert s.pending[id] == [s.pending[id][0]] + t.pending[id];
    }
  }

  /** With any number of senders and any interleaving of lock and partial
      writes, the reader recovers exactly the completed frames in lock order,
      and every sender's frames keep their order with none lost or doubled. */
  lemma {:induction false} ReaderRecoversAShuffle(pending: map<nat, seq<Frame>>, acts: seq<SendAction>, id: nat)
    requires AllSendable(pending) && id in pending
    ensures var s := SendRun(Senders(pending, None, [], []), acts);
            && WireOk(s) && ParseAll(s.wire) == Frames(s.done)
            && id in s.pending && Account(s, id) == pending[id]
            && SentBy(s.done, id) <= pending[id]
  {
    var start := Senders(pending, None, [], []);
    var s := SendRun(start, acts);
    if acts == [] {
      assert Account(s, id) == [] + [] + pending[id] == pending[id];
    } else {
      var init := acts[..|acts| - 1];
      ReaderRecoversAShuffle(pending, init, id);
      WireStep(SendRun(start, init), acts[|acts| - 1]);
      AccountStep(SendRun(start, init), acts[|acts| - 1], id);
    }
    if s.holder.Some? { ParsePartial(s.holder.value.0.frame, s.holder.value.1); }
    ReadsBack(Frames(s.done), if s.holder.Some? then Encode(s.holder.value.0.frame)[..s.holder.value.1] else []);
  }
}
