/** The Connect streaming parser: enveloped messages with a five-byte header, decoded from chunks
    that need not respect frame boundaries. */
module StreamParser {
  import opened Options

  type byte = b: int | 0 <= b < 256
  type bytes = seq<byte>

  const HEADER_LENGTH := 5
  const LIMIT := 0x1_0000_0000

  // ----- Envelopes -----

  datatype Header = Header(flags: int, len: nat)

  /** Flag bit 1 marks the end of the stream; bits above are undefined and refused. */
  predicate EndStream(flags: int) {
    flags == 2 || flags == 3
  }

  /** The big-endian ">BI" header; packing fails on values that do not fit. */
  function EncodeHeader(flags: int, len: nat): Option<bytes> {
    if 0 <= flags < 256 && len < LIMIT then
      Some([flags, len / 0x100_0000, len / 0x1_0000 % 256, len / 256 % 256, len % 256])
    else None
  }

  function EncodeEnvelope(flags: int, data: bytes): Option<bytes> {
    match EncodeHeader(flags, |data|)
    case None => None
    case Some(h) => Some(h + data)
  }

  function DecodeHeader(h: bytes): Option<Header>
    requires |h| == HEADER_LENGTH
  {
    var a: int, b: int, c: int, d: int := h[1], h[2], h[3], h[4];
    if h[0] < 4 then Some(Header(h[0], a * 0x100_0000 + b * 0x1_0000 + c * 256 + d)) else None
  }

  lemma TwoBytes(n: nat)
    ensures n / 0x1_0000 == n / 256 / 256
  {
  }

  lemma ThreeBytes(n: nat)
    ensures n / 0x100_0000 == n / 256 / 256 / 256
  {
  }

  /** The four base-256 digits give the number back. */
  lemma Digits(n: nat)
    ensures n / 0x100_0000 * 0x100_0000 + n / 0x1_0000 % 256 * 0x1_0000 + n / 256 % 256 * 256 + n % 256 == n
  {
    TwoBytes(n);
    ThreeBytes(n);
    var high := n / 256;
    var higher := high / 256;
    assert n == high * 256 + n % 256;
    assert high == higher * 256 + high % 256;
    assert higher == higher / 256 * 256 + higher % 256;
  }

  /** Five bytes, the flags first and then the length with its most significant byte first. */
  lemma HeaderRoundTrip(flags: int, len: nat)
    requires 0 <= flags < 4 && len < LIMIT
    ensures EncodeHeader(flags, len).Some? && |EncodeHeader(flags, len).value| == HEADER_LENGTH
    ensures DecodeHeader(EncodeHeader(flags, len).value) == Some(Header(flags, len))
    ensures var h := EncodeHeader(flags, len).value;
            var a: int, b: int, c: int, d: int := h[1], h[2], h[3], h[4];
            h[0] == flags && ((a * 256 + b) * 256 + c) * 256 + d == len
  {
    Digits(len);
  }

  /** Packing fails exactly on a flag byte or a length that does not fit, and parsing a header
      exactly on an undefined flag. */
  lemma HeaderLimits(flags: int, len: nat, h: bytes)
    requires |h| == HEADER_LENGTH
    ensures EncodeHeader(flags, len).None? <==> flags < 0 || flags > 255 || len >= 0x1_0000_0000
    ensures DecodeHeader(h).None? <==> h[0] > 3
  {
  }

  // ----- The parser -----

  datatype Parser = Parser(buffer: bytes, header: Option<Header>)
  datatype Status = Waiting | Ended(payload: bytes) | Malformed
  datatype Step = Step(parser: Parser, out: seq<bytes>, status: Status)

  const START := Parser([], None)

  /** The loop of parse, after the chunk has been appended. The guard asks for five buffered bytes
      even when the header is already cached. */
  function Drain(p: Parser): Step
    decreases |p.buffer|, if p.header.Some? then 1 else 0
  {
    if |p.buffer| < HEADER_LENGTH then Step(p, [], Waiting) else
    var header := if p.header.Some? then p.header else DecodeHeader(p.buffer[..HEADER_LENGTH]);
    var rest := if p.header.Some? then p.buffer else p.buffer[HEADER_LENGTH..];
    if header.None? then Step(Parser(rest, None), [], Malformed)
    else if header.value.len > |rest| then Step(Parser(rest, header), [], Waiting)
    else
      var data, left := rest[..header.value.len], rest[header.value.len..];
      if EndStream(header.value.flags) then Step(Parser(left, header), [], Ended(data))
      else
        var s := Drain(Parser(left, None));
        Step(s.parser, [data] + s.out, s.status)
  }

  /** The parser once it holds the header of its next frame. */
  function Cached(p: Parser): Parser
    requires |p.buffer| >= HEADER_LENGTH
  {
    if p.header.Some? then p else Parser(p.buffer[HEADER_LENGTH..], DecodeHeader(p.buffer[..HEADER_LENGTH]))
  }

  function Then(data: bytes, s: Step): Step {
    Step(s.parser, [data] + s.out, s.status)
  }

  /** One round of the loop. */
  lemma DrainRound(p: Parser)
    requires |p.buffer| >= HEADER_LENGTH
    ensures var q := Cached(p);
            match q.header
            case None => Drain(p) == Step(q, [], Malformed)
            case Some(h) =>
              if h.len > |q.buffer| then Drain(p) == Step(q, [], Waiting)
              else if EndStream(h.flags) then Drain(p) == Step(Parser(q.buffer[h.len..], q.header), [], Ended(q.buffer[..h.len]))
              else Drain(p) == Then(q.buffer[..h.len], Drain(Parser(q.buffer[h.len..], None)))
  {
    hide DecodeHeader, EndStream;
  }

  lemma DrainShort(p: Parser)
    requires |p.buffer| < HEADER_LENGTH
    ensures Drain(p) == Step(p, [], Waiting)
  {
  }

  class ServerStreamParser {
    var buffer: bytes
    var header: Option<Header>

    constructor ()
      ensures Abs() == START
    {
      buffer := [];
      header := None;
    }

    function Abs(): Parser
      reads this
    {
      Parser(buffer, header)
    }

    method ShiftBuffer(size: nat) returns (data: bytes)
      requires size <= |buffer|
      modifies this`buffer
      ensures data == old(buffer)[..size] && buffer == old(buffer)[size..]
    {
      data := buffer[..size];
      buffer := buffer[size..];
    }

    /** Runs the generator to its end and collects what it yields. */
    method Parse(chunk: bytes) returns (out: seq<bytes>, status: Status)
      modifies this
      ensures Drain(Parser(old(buffer) + chunk, old(header))) == Step(Abs(), out, status)
    {
      hide Drain, DecodeHeader, EndStream;
      buffer := buffer + chunk;
      out := [];
      ghost var goal := Drain(Abs());
      while |buffer| >= HEADER_LENGTH
        invariant goal == Step(Drain(Abs()).parser, out + Drain(Abs()).out, Drain(Abs()).status)
        decreases |buffer|, if header.Some? then 1 else 0
      {
        DrainRound(Abs());
        ghost var q := Cached(Abs());
        if header.None? {
          var headerData := ShiftBuffer(HEADER_LENGTH);
          header := DecodeHeader(headerData);
          if header.None? {
            return out, Malformed;
          }
        }
        assert Abs() == q;
        var h := header.value;
        if h.len > |buffer| {
          return out, Waiting;
        }
        var data := ShiftBuffer(h.len);
        if EndStream(h.flags) {
          return out, Ended(data);
        }
        out := out + [data];
        header := None;
      }
      status := Waiting;
      DrainShort(Abs());
    }
  }

  // ----- One envelope -----

  lemma DrainEnvelope(flags: int, data: bytes)
    requires 0 <= flags < 4 && |data| < LIMIT
    ensures EncodeEnvelope(flags, data).Some?
    ensures var s := Drain(Parser(EncodeEnvelope(flags, data).value, None));
            if flags >= 2 then s.out == [] && s.status == Ended(data)
            else s == Step(START, [data], Waiting)
  {
    HeaderRoundTrip(flags, |data|);
    hide EncodeHeader, DecodeHeader, Drain;
    var h := EncodeHeader(flags, |data|).value;
    var p := Parser(h + data, None);
    assert p.buffer[..HEADER_LENGTH] == h && p.buffer[HEADER_LENGTH..] == data;
    DrainRound(p);
    assert data[..|data|] == data && data[|data|..] == [];
    DrainShort(START);
  }

  /** A header with an undefined flag stops the parser, whatever follows it. */
  lemma UndefinedFlags(p: Parser)
    requires p.header.None? && |p.buffer| >= HEADER_LENGTH && p.buffer[0] > 3
    ensures Drain(p).status.Malformed? && Drain(p).out == []
  {
    assert p.buffer[..HEADER_LENGTH][0] == p.buffer[0];
  }

  // ----- Streams -----

  datatype Frame = Frame(flags: int, data: bytes)

  predicate ValidFrame(f: Frame) {
    0 <= f.flags < 4 && |f.data| < LIMIT
  }

  /** Frames a server may send: the end-stream frame, if any, is the last one. */
  predicate ValidFrames(fs: seq<Frame>) {
    && (forall i :: 0 <= i < |fs| ==> ValidFrame(fs[i]))
    && (forall i :: 0 <= i < |fs| - 1 ==> !EndStream(fs[i].flags))
  }

  function Wire(fs: seq<Frame>): bytes
    requires ValidFrames(fs)
  {
    if fs == [] then [] else
    EncodeEnvelope(fs[0].flags, fs[0].data).value + Wire(fs[1..])
  }

  /** The messages a client should see. */
  function Payloads(fs: seq<Frame>): seq<bytes> {
    if fs == [] then []
    else if EndStream(fs[|fs| - 1].flags) then Payloads(fs[..|fs| - 1])
    else Payloads(fs[..|fs| - 1]) + [fs[|fs| - 1].data]
  }

  predicate HasEnd(fs: seq<Frame>) {
    fs != [] && EndStream(fs[|fs| - 1].flags)
  }

  /** Where frame j starts. */
  function Offset(fs: seq<Frame>, j: nat): nat
    requires j <= |fs|
  {
    if j == 0 then 0 else Offset(fs, j - 1) + HEADER_LENGTH + |fs[j - 1].data|
  }

  /** How many frames lie wholly within the first m bytes. */
  function Complete(fs: seq<Frame>, m: nat): (r: nat)
    ensures r <= |fs| && Offset(fs, r) <= m
    ensures forall j :: r < j <= |fs| ==> m < Offset(fs, j)
  {
    CompleteUpTo(fs, m, |fs|)
  }

  function CompleteUpTo(fs: seq<Frame>, m: nat, n: nat): (r: nat)
    requires n <= |fs| && forall j :: n < j <= |fs| ==> m < Offset(fs, j)
    ensures r <= |fs| && Offset(fs, r) <= m
    ensures forall j :: r < j <= |fs| ==> m < Offset(fs, j)
  {
    if n == 0 || Offset(fs, n) <= m then n else CompleteUpTo(fs, m, n - 1)
  }

  function Concat(chunks: seq<bytes>): bytes {
    if chunks == [] then [] else Concat(chunks[..|chunks| - 1]) + chunks[|chunks| - 1]
  }

  /** The stream positions at which a chunk ended. */
  function Cuts(chunks: seq<bytes>): set<nat> {
    if chunks == [] then {0} else Cuts(chunks[..|chunks| - 1]) + {|Concat(chunks)|}
  }

  predicate CutIn(cuts: set<nat>, low: nat, high: nat) {
    exists b :: b in cuts && low <= b < high
  }

  datatype Fed = Fed(parser: Parser, out: seq<bytes>, status: Status)

  function FeedOne(f: Fed, chunk: bytes): Fed {
    var s := Drain(Parser(f.parser.buffer + chunk, f.parser.header));
    Fed(s.parser, f.out + s.out, if s.status.Waiting? then f.status else s.status)
  }

  /** A fresh parser fed the chunks in turn. */
  function Feed(chunks: seq<bytes>): Fed {
    if chunks == [] then Fed(START, [], Waiting) else FeedOne(Feed(chunks[..|chunks| - 1]), chunks[|chunks| - 1])
  }

  /** On the wire: a frame with the second flag bit ends the stream with its payload, any other
      frame is one message. */
  lemma OneEnvelope(flags: int, data: bytes)
    requires 0 <= flags < 4 && |data| < LIMIT
    ensures EncodeEnvelope(flags, data).Some?
    ensures var f := Feed([EncodeEnvelope(flags, data).value]);
            if flags >= 2 then f.out == [] && f.status == Ended(data)
            else f == Fed(START, [data], Waiting)
  {
    hide Drain, EncodeEnvelope;
    DrainEnvelope(flags, data);
    var wire := EncodeEnvelope(flags, data).value;
    var chunks: seq<bytes> := [wire];
    assert chunks[..0] == [] && START.buffer + wire == wire;
  }

  // ----- One drain -----

  /** The buffered bytes and those still to come are what remains of the frames. */
  ghost predicate Sync(p: Parser, todo: seq<Frame>, future: bytes) {
    && ValidFrames(todo)
    && match p.header
       case None => p.buffer + future == Wire(todo)
       case Some(h) =>
         todo != [] && h == Header(todo[0].flags, |todo[0].data|) && p.buffer + future == todo[0].data + Wire(todo[1..])
  }

  /** The loop has nothing left to do. */
  predicate Settled(p: Parser) {
    |p.buffer| < HEADER_LENGTH || (p.header.Some? && p.header.value.len > |p.buffer|)
  }

  lemma WireSplit(fs: seq<Frame>) returns (h: bytes)
    requires ValidFrames(fs) && fs != []
    ensures Wire(fs) == h + (fs[0].data + Wire(fs[1..])) && |h| == HEADER_LENGTH
    ensures DecodeHeader(h) == Some(Header(fs[0].flags, |fs[0].data|))
  {
    hide EncodeHeader, DecodeHeader;
    HeaderRoundTrip(fs[0].flags, |fs[0].data|);
    h := EncodeHeader(fs[0].flags, |fs[0].data|).value;
    assert (h + fs[0].data) + Wire(fs[1..]) == h + (fs[0].data + Wire(fs[1..]));
  }

  lemma WireHead(fs: seq<Frame>)
    requires ValidFrames(fs) && fs != []
    ensures |Wire(fs)| >= HEADER_LENGTH
    ensures DecodeHeader(Wire(fs)[..HEADER_LENGTH]) == Some(Header(fs[0].flags, |fs[0].data|))
    ensures Wire(fs)[HEADER_LENGTH..] == fs[0].data + Wire(fs[1..])
  {
    hide Wire, DecodeHeader;
    var h := WireSplit(fs);
    var rest := fs[0].data + Wire(fs[1..]);
    assert (h + rest)[..HEADER_LENGTH] == h && (h + rest)[HEADER_LENGTH..] == rest;
  }

  /** Caching the header changes the representation, not what it stands for. */
  lemma CacheHeader(p: Parser, todo: seq<Frame>, future: bytes)
    requires Sync(p, todo, future) && p.header.None? && |p.buffer| >= HEADER_LENGTH
    ensures todo != []
    ensures DecodeHeader(p.buffer[..HEADER_LENGTH]) == Some(Header(todo[0].flags, |todo[0].data|))
    ensures Sync(Parser(p.buffer[HEADER_LENGTH..], Some(Header(todo[0].flags, |todo[0].data|))), todo, future)
  {
    WireHead(todo);
    var whole := p.buffer + future;
    assert whole[..HEADER_LENGTH] == p.buffer[..HEADER_LENGTH];
    assert whole[HEADER_LENGTH..] == p.buffer[HEADER_LENGTH..] + future;
  }

  lemma TakeFrame(p: Parser, todo: seq<Frame>, future: bytes)
    requires Sync(p, todo, future) && p.header.Some? && p.header.value.len <= |p.buffer|
    ensures p.buffer[..p.header.value.len] == todo[0].data
    ensures Sync(Parser(p.buffer[p.header.value.len..], None), todo[1..], future)
  {
    var n := p.header.value.len;
    var whole := p.buffer + future;
    assert whole[..n] == p.buffer[..n] && whole[n..] == p.buffer[n..] + future;
    assert (todo[0].data + Wire(todo[1..]))[..n] == todo[0].data;
    assert (todo[0].data + Wire(todo[1..]))[n..] == Wire(todo[1..]);
  }

  lemma {:induction false} PayloadsHead(fs: seq<Frame>)
    requires fs != [] && !EndStream(fs[0].flags)
    ensures Payloads(fs) == [fs[0].data] + Payloads(fs[1..])
  {
    if |fs| == 1 {
      assert fs[..0] == [] && fs[1..] == [];
    } else {
      PayloadsHead(fs[..|fs| - 1]);
      assert fs[..|fs| - 1][1..] == fs[1..][..|fs| - 2];
    }
  }

  /** A drain works off the first i frames and leaves the rest in step; a header it caches itself
      belongs to a frame that is still incomplete. */
  ghost predicate Drained(p: Parser, todo: seq<Frame>, future: bytes, i: nat, s: Step) {
    && i <= |todo|
    && s.out == Payloads(todo[..i])
    && (s.status.Ended? <==> i == |todo| && HasEnd(todo))
    && (s.status.Waiting? <==> !s.status.Ended?)
    && (s.status.Ended? ==> s.parser.buffer + future == [] && s.status.payload == todo[i - 1].data)
    && (s.status.Waiting? ==> Sync(s.parser, todo[i..], future) && Settled(s.parser))
    && (i == 0 ==> |p.buffer| >= HEADER_LENGTH || s.parser == p)
    && (i == 0 && p.header.Some? ==> s.parser.header.Some?)
    && (i > 0 ==> |p.buffer| >= HEADER_LENGTH)
    && (s.status.Waiting? && (i > 0 || p.header.None?) && s.parser.header.Some? ==>
          s.parser.header.value.len > |s.parser.buffer|)
  }

  lemma {:induction false} DrainFrames(p: Parser, todo: seq<Frame>, future: bytes) returns (i: nat)
    requires Sync(p, todo, future)
    ensures Drained(p, todo, future, i, Drain(p))
    decreases |p.buffer|, if p.header.Some? then 1 else 0
  {
    hide Drain, DecodeHeader, Wire, Payloads;
    if |p.buffer| < HEADER_LENGTH {
      i := 0;
      DrainShort(p);
      NoPayloads(todo);
      assert todo[0..] == todo;
      return;
    }
    DrainRound(p);
    if p.header.None? {
      CacheHeader(p, todo, future);
    }
    var q := Cached(p);
    if q.header.value.len > |q.buffer| {
      i := 0;
      NoPayloads(todo);
      assert todo[0..] == todo;
      return;
    }
    TakeFrame(q, todo, future);
    var left := Parser(q.buffer[q.header.value.len..], None);
    if EndStream(todo[0].flags) {
      i := 1;
      assert todo == [todo[0]];
      NoMoreFrames(todo, left, future);
    } else {
      var k := DrainFrames(left, todo[1..], future);
      i := k + 1;
      DrainedNext(p, left, todo, future, k);
    }
  }

  lemma NoPayloads(fs: seq<Frame>)
    ensures Payloads(fs[..0]) == []
  {
  }

  lemma NoMoreFrames(todo: seq<Frame>, left: Parser, future: bytes)
    requires |todo| == 1 && EndStream(todo[0].flags) && Sync(left, todo[1..], future) && left.header.None?
    ensures Payloads(todo[..1]) == [] && left.buffer + future == []
  {
    assert todo[..1][..0] == [];
  }

  /** One frame more, and then what the rest of the loop does. */
  lemma DrainedNext(p: Parser, left: Parser, todo: seq<Frame>, future: bytes, k: nat)
    requires todo != [] && !EndStream(todo[0].flags) && |p.buffer| >= HEADER_LENGTH
    requires left.header.None? && Drained(left, todo[1..], future, k, Drain(left))
    ensures Drained(p, todo, future, k + 1, Then(todo[0].data, Drain(left)))
  {
    hide Drain, Sync, Settled;
    var i := k + 1;
    assert todo[..i][1..] == todo[1..][..k];
    assert todo[i..] == todo[1..][k..];
    PayloadsHead(todo[..i]);
  }

  // ----- Whole streams -----

  lemma {:induction false} WireLength(fs: seq<Frame>, j: nat)
    requires ValidFrames(fs) && j <= |fs|
    ensures Offset(fs, j) + |Wire(fs[j..])| == Offset(fs, |fs|)
    decreases |fs| - j
  {
    if j < |fs| {
      WireLength(fs, j + 1);
      HeaderRoundTrip(fs[j].flags, |fs[j].data|);
      assert fs[j..][1..] == fs[j + 1..];
    } else {
      assert fs[j..] == [];
    }
  }

  lemma {:induction false} PayloadsJoin(a: seq<Frame>, b: seq<Frame>)
    ensures Payloads(a + b) == Payloads(a) + Payloads(b)
    decreases |b|
  {
    if b == [] {
      assert a + b == a;
    } else {
      PayloadsJoin(a, b[..|b| - 1]);
      assert (a + b)[..|a + b| - 1] == a + b[..|b| - 1];
    }
  }

  /** After m bytes, j frames have been worked off and the parser is in step with the rest. */
  ghost predicate InStep(fs: seq<Frame>, m: nat, f: Fed, j: nat, future: bytes) {
    && ValidFrames(fs) && j <= |fs| && m + |future| == Offset(fs, |fs|)
    && f.out == Payloads(fs[..j])
    && (f.status.Ended? <==> j == |fs| && HasEnd(fs))
    && (f.status.Waiting? <==> !f.status.Ended?)
    && (f.status.Ended? ==> f.parser.buffer + future == [] && f.status.payload == fs[|fs| - 1].data)
    && (f.status.Waiting? ==> Sync(f.parser, fs[j..], future) && Settled(f.parser))
  }

  /** The header of frame j is cached exactly when a chunk ended between that header and the end
      of the frame. */
  ghost predicate CachedIffCut(fs: seq<Frame>, cuts: set<nat>, f: Fed, j: nat) {
    f.status.Waiting? && j < |fs| ==>
      (f.parser.header.Some? <==> CutIn(cuts, Offset(fs, j) + HEADER_LENGTH, Offset(fs, j + 1)))
  }

  /** A frame that was cached was released only once five bytes had followed its header. */
  ghost predicate CutReleasedLate(fs: seq<Frame>, cuts: set<nat>, m: nat, j: nat) {
    0 < j <= |fs| && CutIn(cuts, Offset(fs, j - 1) + HEADER_LENGTH, Offset(fs, j)) ==>
      m >= Offset(fs, j - 1) + 2 * HEADER_LENGTH
  }

  ghost predicate At(fs: seq<Frame>, cuts: set<nat>, m: nat, f: Fed, j: nat, future: bytes) {
    && InStep(fs, m, f, j, future)
    && CachedIffCut(fs, cuts, f, j)
    && CutReleasedLate(fs, cuts, m, j)
    && (forall b :: b in cuts ==> b <= m)
  }

  /** How much is buffered, from the positions alone. */
  lemma Buffered(fs: seq<Frame>, m: nat, p: Parser, j: nat, future: bytes)
    requires ValidFrames(fs) && j <= |fs| && m + |future| == Offset(fs, |fs|)
    requires Sync(p, fs[j..], future)
    ensures |p.buffer| + (if p.header.Some? then HEADER_LENGTH else 0) == m - Offset(fs, j)
  {
    WireLength(fs, j);
    if p.header.Some? {
      WireLength(fs, j + 1);
      assert fs[j..][1..] == fs[j + 1..];
    }
  }

  lemma {:induction false} OffsetMonotone(fs: seq<Frame>, j: nat, k: nat)
    requires j <= k <= |fs|
    ensures Offset(fs, j) <= Offset(fs, k)
    ensures j < k ==> Offset(fs, j) + HEADER_LENGTH <= Offset(fs, k)
    decreases k
  {
    if j < k {
      OffsetMonotone(fs, j, k - 1);
    }
  }

  /** Before any further chunk, the header of a later frame cannot have arrived. */
  lemma NotYetAtLaterFrame(fs: seq<Frame>, m: nat, f: Fed, j: nat, future: bytes, k: nat)
    requires InStep(fs, m, f, j, future) && f.status.Waiting? && j < k <= |fs|
    ensures m < Offset(fs, k) + HEADER_LENGTH
  {
    Buffered(fs, m, f.parser, j, future);
    OffsetMonotone(fs, j + 1, k);
  }

  lemma ReachedFrame(fs: seq<Frame>, m: nat, f: Fed, k: nat, future: bytes)
    requires InStep(fs, m, f, k, future)
    ensures m >= Offset(fs, k)
  {
    if f.status.Waiting? {
      Buffered(fs, m, f.parser, k, future);
    }
  }

  function Appended(f: Fed, chunk: bytes): Parser {
    Parser(f.parser.buffer + chunk, f.parser.header)
  }

  /** What one chunk does to the parser, in frames. */
  lemma ChunkInStep(fs: seq<Frame>, m: nat, f: Fed, j: nat, chunk: bytes, future: bytes) returns (i: nat)
    requires InStep(fs, m, f, j, chunk + future) && f.status.Waiting?
    ensures Sync(Appended(f, chunk), fs[j..], future)
    ensures Drained(Appended(f, chunk), fs[j..], future, i, Drain(Appended(f, chunk)))
    ensures InStep(fs, m + |chunk|, FeedOne(f, chunk), j + i, future)
  {
    hide Drain, Wire, Settled, Payloads;
    var p := Appended(f, chunk);
    assert p.buffer + future == f.parser.buffer + (chunk + future);
    i := DrainFrames(p, fs[j..], future);
    PayloadsJoin(fs[..j], fs[j..][..i]);
    assert fs[..j] + fs[j..][..i] == fs[..j + i];
    assert fs[j..][i..] == fs[j + i..];
    assert f.out == Payloads(fs[..j]);
  }

  lemma ChunkCaches(fs: seq<Frame>, cuts: set<nat>, m: nat, f: Fed, j: nat, chunk: bytes, future: bytes, i: nat)
    requires At(fs, cuts, m, f, j, chunk + future) && f.status.Waiting? && j + i < |fs|
    requires Sync(Appended(f, chunk), fs[j..], future)
    requires Drained(Appended(f, chunk), fs[j..], future, i, Drain(Appended(f, chunk)))
    requires InStep(fs, m + |chunk|, FeedOne(f, chunk), j + i, future)
    ensures CachedIffCut(fs, cuts + {m + |chunk|}, FeedOne(f, chunk), j + i)
  {
    hide Drain, Wire, Payloads;
    var p, q, k := Appended(f, chunk), FeedOne(f, chunk).parser, j + i;
    Buffered(fs, m + |chunk|, p, j, future);
    Buffered(fs, m + |chunk|, q, k, future);
    if i > 0 {
      NotYetAtLaterFrame(fs, m, f, j, chunk + future, k);
    }
    hide Sync;
    var low, high := Offset(fs, k) + HEADER_LENGTH, Offset(fs, k + 1);
    assert CutIn(cuts + {m + |chunk|}, low, high) <==> CutIn(cuts, low, high) || low <= m + |chunk| < high by {
      assert m + |chunk| in cuts + {m + |chunk|};
    }
    HeaderOfFirst(fs, m + |chunk|, FeedOne(f, chunk), k, future);
  }

  lemma HeaderOfFirst(fs: seq<Frame>, m: nat, f: Fed, k: nat, future: bytes)
    requires InStep(fs, m, f, k, future)
    ensures f.status.Waiting? && f.parser.header.Some? ==> k < |fs| && f.parser.header.value.len == |fs[k].data|
  {
  }

  /** A frame that had to wait for its rest is released only with five bytes behind its header. */
  lemma ReleasedLate(fs: seq<Frame>, cuts: set<nat>, m: nat, f: Fed, j: nat, chunk: bytes, future: bytes, i: nat)
    requires At(fs, cuts, m, f, j, chunk + future) && f.status.Waiting?
    requires Sync(Appended(f, chunk), fs[j..], future)
    requires j + i <= |fs|
    requires i > 0 ==> |Appended(f, chunk).buffer| >= HEADER_LENGTH
    requires m + |chunk| >= Offset(fs, j + i)
    ensures CutReleasedLate(fs, cuts + {m + |chunk|}, m + |chunk|, j + i)
  {
    hide Drain, Wire, Payloads;
    var k := j + i;
    if i == 1 {
      Buffered(fs, m + |chunk|, Appended(f, chunk), j, future);
    } else if i > 1 {
      NotYetAtLaterFrame(fs, m, f, j, chunk + future, k - 1);
    }
    hide Sync;
    if 0 < k && CutIn(cuts + {m + |chunk|}, Offset(fs, k - 1) + HEADER_LENGTH, Offset(fs, k)) {
      var b :| b in cuts + {m + |chunk|} && Offset(fs, k - 1) + HEADER_LENGTH <= b < Offset(fs, k);
      assert b in cuts;
    }
  }

  lemma OneMoreChunk(fs: seq<Frame>, cuts: set<nat>, m: nat, f: Fed, j: nat, chunk: bytes, future: bytes) returns (k: nat)
    requires At(fs, cuts, m, f, j, chunk + future)
    ensures At(fs, cuts + {m + |chunk|}, m + |chunk|, FeedOne(f, chunk), k, future)
  {
    if f.status.Ended? {
      k := j;
      assert chunk == [] && future == [];
      assert Appended(f, chunk).buffer == [];
    } else {
      hide FeedOne, Drain, Sync;
      var i := ChunkInStep(fs, m, f, j, chunk, future);
      k := j + i;
      if k < |fs| {
        ChunkCaches(fs, cuts, m, f, j, chunk, future, i);
      }
      ReachedFrame(fs, m + |chunk|, FeedOne(f, chunk), k, future);
      ReleasedLate(fs, cuts, m, f, j, chunk, future, i);
    }
  }

  lemma {:induction false} FeedAt(fs: seq<Frame>, chunks: seq<bytes>, future: bytes) returns (j: nat)
    requires ValidFrames(fs) && Concat(chunks) + future == Wire(fs)
    ensures At(fs, Cuts(chunks), |Concat(chunks)|, Feed(chunks), j, future)
    decreases |chunks|
  {
    hide At, FeedOne;
    if chunks == [] {
      j := 0;
      FeedNothing(fs, future);
    } else {
      var earlier, chunk := chunks[..|chunks| - 1], chunks[|chunks| - 1];
      assert Concat(earlier) + (chunk + future) == Wire(fs);
      var i := FeedAt(fs, earlier, chunk + future);
      j := OneMoreChunk(fs, Cuts(earlier), |Concat(earlier)|, Feed(earlier), i, chunk, future);
    }
  }

  lemma FeedNothing(fs: seq<Frame>, future: bytes)
    requires ValidFrames(fs) && future == Wire(fs)
    ensures At(fs, {0}, 0, Fed(START, [], Waiting), 0, future)
  {
    WireLength(fs, 0);
    assert fs[0..] == fs && [] + future == future;
  }

  /** How many frames the parser has worked off after m bytes: all complete ones, except a last one
      that a chunk boundary had separated from its header and that fewer than five bytes follow. */
  function WorkedOff(fs: seq<Frame>, cuts: set<nat>, m: nat): nat {
    var r := Complete(fs, m);
    if r > 0 && CutIn(cuts, Offset(fs, r - 1) + HEADER_LENGTH, Offset(fs, r)) && m < Offset(fs, r - 1) + 2 * HEADER_LENGTH
    then r - 1 else r
  }

  lemma PositionDecides(fs: seq<Frame>, cuts: set<nat>, m: nat, f: Fed, j: nat, future: bytes)
    requires At(fs, cuts, m, f, j, future)
    ensures j == WorkedOff(fs, cuts, m)
  {
    hide Payloads, Wire;
    var r := Complete(fs, m);
    ReachedFrame(fs, m, f, j, future);
    assert j <= r;
    HeaderOfFirst(fs, m, f, j, future);
    if f.status.Waiting? {
      Buffered(fs, m, f.parser, j, future);
      if j + 1 < |fs| {
        OffsetMonotone(fs, j + 1, j + 2);
        assert m < Offset(fs, j + 2);
        assert r <= j + 1 by {
          if r > j + 1 {
            OffsetMonotone(fs, j + 2, r);
          }
        }
      }
    }
  }

  /** For every list of frames and every way of cutting any prefix of their bytes into chunks, the
      messages yielded are exactly those of the frames worked off, and the end of the stream is
      seen exactly when its frame is among them. No input of this kind is rejected. */
  lemma ParsesExactly(fs: seq<Frame>, chunks: seq<bytes>, future: bytes)
    requires ValidFrames(fs) && Concat(chunks) + future == Wire(fs)
    ensures var f, n := Feed(chunks), WorkedOff(fs, Cuts(chunks), |Concat(chunks)|);
            && n <= |fs| && f.out == Payloads(fs[..n])
            && !f.status.Malformed?
            && (f.status.Ended? <==> n == |fs| && HasEnd(fs))
            && (f.status.Ended? ==> f.status.payload == fs[|fs| - 1].data)
  {
    var j := FeedAt(fs, chunks, future);
    PositionDecides(fs, Cuts(chunks), |Concat(chunks)|, Feed(chunks), j, future);
  }

  lemma WithheldByPosition(fs: seq<Frame>, cuts: set<nat>, m: nat)
    ensures var r, n := Complete(fs, m), WorkedOff(fs, cuts, m);
            && n <= r <= n + 1
            && (n < r ==> 1 <= |fs[n].data| <= 4 && m - Offset(fs, n) - HEADER_LENGTH < HEADER_LENGTH)
  {
  }

  /** At most one complete frame is ever withheld, and then its payload has one to four bytes, its
      header is cached and fewer than five bytes are buffered. */
  lemma WithheldIsShort(fs: seq<Frame>, chunks: seq<bytes>, future: bytes)
    requires ValidFrames(fs) && Concat(chunks) + future == Wire(fs)
    ensures var m, p := |Concat(chunks)|, Feed(chunks).parser;
            var r, n := Complete(fs, m), WorkedOff(fs, Cuts(chunks), m);
            && n <= r <= n + 1
            && (n < r ==> 1 <= |fs[n].data| <= 4 && p.header.Some? && |fs[n].data| <= |p.buffer| < HEADER_LENGTH)
  {
    hide Feed, Cuts, Wire, Concat, Payloads;
    var m, f, cuts := |Concat(chunks)|, Feed(chunks), Cuts(chunks);
    var j := FeedAt(fs, chunks, future);
    PositionDecides(fs, cuts, m, f, j, future);
    WithheldByPosition(fs, cuts, m);
    if j < Complete(fs, m) {
      Buffered(fs, m, f.parser, j, future);
      OffsetMonotone(fs, j + 1, Complete(fs, m));
    }
  }

  /** At the end of the stream everything has been delivered, unless the last payload has one to
      four bytes and a chunk ended between its header and its last byte. */
  lemma DeliversWholeStream(fs: seq<Frame>, chunks: seq<bytes>)
    requires ValidFrames(fs) && fs != [] && Concat(chunks) == Wire(fs)
    ensures var last := |fs| - 1;
            Feed(chunks).out == Payloads(fs) && (HasEnd(fs) ==> Feed(chunks).status.Ended?) <==>
            !(1 <= |fs[last].data| <= 4
              && CutIn(Cuts(chunks), Offset(fs, last) + HEADER_LENGTH, Offset(fs, last + 1)))
  {
    hide Feed, Cuts, Wire, Concat, Payloads, ValidFrames, EndStream;
    assert Concat(chunks) + [] == Wire(fs);
    ParsesExactly(fs, chunks, []);
    WireLength(fs, 0);
    assert fs[0..] == fs && fs[..|fs|] == fs;
    WithheldLast(fs, Cuts(chunks));
    LastPayload(fs);
  }

  /** Of the whole stream only the last frame can be withheld. */
  lemma WithheldLast(fs: seq<Frame>, cuts: set<nat>)
    requires fs != []
    ensures var n, last := WorkedOff(fs, cuts, Offset(fs, |fs|)), |fs| - 1;
            if 1 <= |fs[last].data| <= 4 && CutIn(cuts, Offset(fs, last) + HEADER_LENGTH, Offset(fs, last + 1))
            then n == last else n == |fs|
  {
    assert Complete(fs, Offset(fs, |fs|)) == |fs|;
  }

  lemma LastPayload(fs: seq<Frame>)
    requires fs != []
    ensures Payloads(fs[..|fs| - 1]) == Payloads(fs) ==> HasEnd(fs)
  {
  }
}
