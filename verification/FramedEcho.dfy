/** Length-prefixed echo on a QUIC stream. A frame is a four-byte little-endian length and that many bytes; the length
    65536 is the sentinel that switches the stream to echoing everything up to its end, once. */
module FramedEcho {
  import opened Chunks
  import opened LittleEndian

  const LIMIT: nat := 0x1_0000

  /** The buffer starts with a whole frame of a length the server accepts. */
  predicate StartsWithFrame(buf: Chunk) {
    |buf| >= 4 && 1 <= FromLe(buf[..4]) < LIMIT && 4 + FromLe(buf[..4]) <= |buf|
  }

  predicate IsFrame(f: Chunk) {
    StartsWithFrame(f) && |f| == 4 + FromLe(f[..4])
  }

  predicate StartsWithSentinel(buf: Chunk) {
    |buf| >= 4 && FromLe(buf[..4]) == LIMIT
  }

  /** `rest` is a sentinel, then a remainder that ends and fits the read limit. */
  predicate IsSingleShot(rest: Chunk, fin: bool) {
    StartsWithSentinel(rest) && fin && |rest| - 4 <= LIMIT
  }

  ghost predicate AllFrames(fs: seq<Chunk>) {
    forall f | f in fs :: IsFrame(f)
  }

  /** Frames, then something that is not a frame. */
  ghost predicate Cut(input: Chunk, fs: seq<Chunk>, rest: Chunk) {
    input == Flatten(fs) + rest && AllFrames(fs) && !StartsWithFrame(rest)
  }

  /** What one stream is answered with: the frames echoed and, after a sentinel, the data echoed before the finish. */
  datatype Served = Served(frames: Chunk, shot: Option<Chunk>) {
    function Out(): Chunk {
      if shot.None? then frames else frames + shot.value
    }
  }

  /** The answer to all the bytes that ever arrive; `fin` says whether the client then finishes the stream. */
  function Serve(input: Chunk, fin: bool): Served
    decreases |input|
  {
    if StartsWithFrame(input) then
      var n := 4 + FromLe(input[..4]);
      var s := Serve(input[n..], fin);
      s.(frames := input[..n] + s.frames)
    else Served([], if IsSingleShot(input, fin) then Some(input[4..]) else None)
  }

  /** A frame, byte by byte: the length, lowest byte first, from 1 to 65535, and that many bytes. */
  lemma FrameExactly(buf: Chunk)
    requires |buf| >= 4
    ensures var n := buf[0] as nat + 256 * buf[1] as nat + 65536 * buf[2] as nat + 16777216 * buf[3] as nat;
      && (StartsWithFrame(buf) <==> 1 <= n <= 65535 && 4 + n <= |buf|)
      && (IsFrame(buf) <==> 1 <= n <= 65535 && 4 + n == |buf|)
      && (StartsWithSentinel(buf) <==> n == 65536)
  {
    var f := buf[..4];
    assert f[0] == buf[0] && f[1] == buf[1] && f[2] == buf[2] && f[3] == buf[3];
  }

  // ----- What the answer is, for every input -----

  lemma FrameStarts(f: Chunk, tail: Chunk)
    requires IsFrame(f)
    ensures StartsWithFrame(f + tail) && FromLe((f + tail)[..4]) == |f| - 4
    ensures (f + tail)[..|f|] == f && (f + tail)[|f|..] == tail
  {
    assert (f + tail)[..4] == f[..4];
  }

  lemma FirstIsFrame(buf: Chunk)
    requires StartsWithFrame(buf)
    ensures IsFrame(buf[..4 + FromLe(buf[..4])])
  {
    assert buf[..4 + FromLe(buf[..4])][..4] == buf[..4];
  }

  lemma ServeFirst(f: Chunk, tail: Chunk, fin: bool)
    requires IsFrame(f)
    ensures Serve(f + tail, fin) == Served(f + Serve(tail, fin).frames, Serve(tail, fin).shot)
  {
    FrameStarts(f, tail);
  }

  lemma {:induction false} ServeFrames(fs: seq<Chunk>, rest: Chunk, fin: bool)
    requires AllFrames(fs)
    ensures Serve(Flatten(fs) + rest, fin) == Served(Flatten(fs) + Serve(rest, fin).frames, Serve(rest, fin).shot)
  {
    if fs == [] {
      assert Flatten(fs) + rest == rest;
      assert Flatten(fs) + Serve(rest, fin).frames == Serve(rest, fin).frames;
    } else {
      var tail := Flatten(fs[1..]) + rest;
      assert Flatten(fs) + rest == fs[0] + tail by {
        Assoc(fs[0], Flatten(fs[1..]), rest);
      }
      ServeFirst(fs[0], tail, fin);
      ServeFrames(fs[1..], rest, fin);
      Assoc(fs[0], Flatten(fs[1..]), Serve(rest, fin).frames);
    }
  }

  /** Every input can be cut. */
  lemma {:induction false} CutExists(input: Chunk) returns (fs: seq<Chunk>, rest: Chunk)
    ensures Cut(input, fs, rest)
    decreases |input|
  {
    if StartsWithFrame(input) {
      var n := 4 + FromLe(input[..4]);
      FirstIsFrame(input);
      fs, rest := CutExists(input[n..]);
      FlattenCons(input[..n], fs);
      Assoc(input[..n], Flatten(fs), rest);
      fs := [input[..n]] + fs;
    } else {
      fs, rest := [], input;
    }
  }

  /** However an input is cut, the answer is its frames and, exactly when what follows is a sentinel whose remainder
      ends within 65536 bytes, that remainder. */
  lemma ServeExactly(input: Chunk, fin: bool, fs: seq<Chunk>, rest: Chunk)
    requires Cut(input, fs, rest)
    ensures Serve(input, fin).frames == Flatten(fs)
    ensures Serve(input, fin).shot ==
      if |rest| >= 4 && FromLe(rest[..4]) == 65536 && fin && |rest| <= 4 + 65536 then Some(rest[4..]) else None
  {
    ServeFrames(fs, rest, fin);
    assert Flatten(fs) + [] == Flatten(fs);
  }

  /** The frames of a cut are the longest list of frames the input starts with. */
  lemma {:induction false} CutIsLongest(input: Chunk, fs: seq<Chunk>, rest: Chunk, gs: seq<Chunk>)
    requires Cut(input, fs, rest)
    requires AllFrames(gs) && Flatten(gs) <= input
    ensures gs <= fs && Flatten(gs) <= Flatten(fs)
  {
    if gs == [] {
    } else {
      var g, tail := gs[0], input[|gs[0]|..];
      assert input[..|Flatten(gs)|][..|g|] == Flatten(gs)[..|g|] == g;
      assert input == g + tail;
      FrameStarts(g, tail);
      if fs == [] {
        assert false;
      } else {
        Assoc(fs[0], Flatten(fs[1..]), rest);
        FrameStarts(fs[0], Flatten(fs[1..]) + rest);
        assert fs[0] == g && tail == Flatten(fs[1..]) + rest;
        assert Flatten(gs[1..]) == Flatten(gs)[|g|..] == input[|g|..|Flatten(gs)|];
        CutIsLongest(tail, fs[1..], rest, gs[1..]);
      }
    }
  }

  /** There is only one way to cut an input. */
  lemma CutIsUnique(input: Chunk, fs: seq<Chunk>, rest: Chunk, gs: seq<Chunk>, rest': Chunk)
    requires Cut(input, fs, rest) && Cut(input, gs, rest')
    ensures fs == gs && rest == rest'
  {
    CutIsLongest(input, fs, rest, gs);
    CutIsLongest(input, gs, rest', fs);
    assert rest == input[|Flatten(fs)|..] == rest';
  }

  /** A sentinel follows the frames the input starts with. */
  ghost predicate HasSentinel(input: Chunk) {
    exists fs, rest :: Cut(input, fs, rest) && StartsWithSentinel(rest)
  }

  /** The frames the answer to an input without a sentinel consists of. */
  ghost predicate Framed(out: Chunk, input: Chunk) {
    out <= input && exists fs :: AllFrames(fs) && out == Flatten(fs)
  }

  /** Without a sentinel the answer is the longest prefix of the input made of whole valid frames. */
  lemma LongestFramedPrefix(input: Chunk, fin: bool, gs: seq<Chunk>)
    requires !HasSentinel(input) && AllFrames(gs) && Flatten(gs) <= input
    ensures Framed(Serve(input, fin).Out(), input) && Flatten(gs) <= Serve(input, fin).Out()
  {
    var fs, rest := CutExists(input);
    ServeExactly(input, fin, fs, rest);
    CutIsLongest(input, fs, rest, gs);
  }

  /** What was answered to the bytes seen so far is never taken back. */
  lemma ServeIsMonotone(a: Chunk, b: Chunk, fin: bool)
    ensures Serve(a, false).Out() <= Serve(a + b, fin).Out()
  {
    var fs, rest := CutExists(a);
    ServeExactly(a, false, fs, rest);
    Assoc(Flatten(fs), rest, b);
    ServeFrames(fs, rest + b, fin);
  }

  // ----- The server's loop -----

  /** The receiving side of a stream: all that arrives, and whether it is then finished. A read that asks for more
      than is there fails, at the end of the stream or by waiting for ever. */
  class RecvStream {
    const data: Chunk
    const fin: bool
    var pos: nat

    ghost predicate Valid()
      reads this
    {
      pos <= |data|
    }

    ghost function Rest(): Chunk
      requires Valid()
      reads this
    {
      data[pos..]
    }

    constructor (data: Chunk, fin: bool)
      ensures Valid() && this.data == data && this.fin == fin && Rest() == data
    {
      this.data, this.fin, this.pos := data, fin, 0;
    }

    method ReadExact(n: nat) returns (r: Option<Chunk>)
      requires Valid()
      modifies this
      ensures Valid()
      ensures r == if n <= |old(Rest())| then Some(old(Rest())[..n]) else None
      ensures Rest() == if n <= |old(Rest())| then old(Rest())[n..] else []
    {
      if n <= |data| - pos {
        r := Some(data[pos..][..n]);
        pos := pos + n;
      } else {
        r := None;
        pos := |data|;
      }
    }

    method ReadToEnd(limit: nat) returns (r: Option<Chunk>)
      requires Valid()
      modifies this
      ensures Valid()
      ensures r == if fin && |old(Rest())| <= limit then Some(old(Rest())) else None
      ensures Rest() == []
    {
      r := if fin && |data| - pos <= limit then Some(data[pos..]) else None;
      pos := |data|;
    }
  }

  /** The sending side; the peer takes `budget` bytes before it stops the stream. */
  class SendStream {
    const budget: nat
    var out: Chunk
    var finished: bool

    constructor (budget: nat)
      ensures this.budget == budget && out == [] && !finished
    {
      this.budget := budget;
      out, finished := [], false;
    }

    method WriteAll(bytes: Chunk) returns (ok: bool)
      requires |out| <= budget
      modifies this`out
      ensures ok <==> |old(out) + bytes| <= budget
      ensures out == Upto(old(out) + bytes, budget)
    {
      ok := |bytes| <= budget - |out|;
      out := out + if ok then bytes else bytes[..budget - |out|];
    }

    method Finish()
      modifies this`finished
      ensures finished
    {
      finished := true;
    }
  }

  /** The answer as far as the client takes it, finished exactly in single-shot mode. */
  ghost predicate IsAnswer(s: Served, out: Chunk, finished: bool, budget: nat) {
    && out == Upto(s.Out(), budget)
    && (finished <==> s.shot.Some? && |s.frames| <= budget)
  }

  /** What a served stream still has to answer, with `out` answered. */
  ghost predicate Remains(s: Served, out: Chunk, rest: Chunk, fin: bool) {
    s.frames == out + Serve(rest, fin).frames && s.shot == Serve(rest, fin).shot
  }

  lemma NothingMore(s: Served, out: Chunk, rest: Chunk, fin: bool, budget: nat)
    requires Remains(s, out, rest, fin) && |out| <= budget
    requires !StartsWithFrame(rest) && !StartsWithSentinel(rest)
    ensures IsAnswer(s, out, false, budget)
  {
    assert out + [] == out;
  }

  lemma FrameEchoed(s: Served, out: Chunk, rest: Chunk, fin: bool, lenBuf: Chunk, data: Chunk, rest': Chunk)
    requires Remains(s, out, rest, fin) && StartsWithFrame(rest)
    requires lenBuf == rest[..4] && data == rest[4..][..FromLe(lenBuf)] && rest' == rest[4..][FromLe(lenBuf)..]
    ensures Remains(s, out + (lenBuf + data), rest', fin)
  {
    var n := 4 + FromLe(lenBuf);
    assert lenBuf + data == rest[..n] && rest' == rest[n..];
    Assoc(out, lenBuf + data, Serve(rest', fin).frames);
  }

  /** One pass of the loop that echoes a frame; `false` when a write fails. */
  method EchoFrame(send: SendStream, lenBuf: Chunk, data: Chunk) returns (ok: bool)
    requires |send.out| <= send.budget
    modifies send`out
    ensures send.out == Upto(old(send.out) + (lenBuf + data), send.budget)
    ensures ok <==> |old(send.out) + (lenBuf + data)| <= send.budget
  {
    Assoc(send.out, lenBuf, data);
    ghost var before := send.out;
    ok := send.WriteAll(lenBuf);
    if !ok {
      UptoPrefix(before + lenBuf, data, send.budget);
      return;
    }
    ok := send.WriteAll(data);
  }

  /** Serves one stream: its output is the answer to all its input, as far as the client takes it, and it finishes
      the stream exactly in single-shot mode. */
  method ServeStream(recv: RecvStream, send: SendStream)
    requires recv.Valid() && send.out == [] && !send.finished
    modifies recv, send
    ensures IsAnswer(Serve(old(recv.Rest()), recv.fin), send.out, send.finished, send.budget)
  {
    ghost var s, rest := Serve(recv.Rest(), recv.fin), recv.Rest();
    while true
      invariant recv.Valid() && !send.finished && |send.out| <= send.budget
      invariant Remains(s, send.out, recv.Rest(), recv.fin)
      decreases |recv.Rest()|
    {
      rest := recv.Rest();
      var lenBuf := recv.ReadExact(4);
      if lenBuf.None? {
        break;
      }
      var len := FromLe(lenBuf.value);
      if len == LIMIT {
        ServeOneShot(recv, send, s, rest);
        return;
      }
      if len == 0 || len > LIMIT {
        break;
      }
      var data := recv.ReadExact(len);
      if data.None? {
        break;
      }
      FrameEchoed(s, send.out, rest, recv.fin, lenBuf.value, data.value, recv.Rest());
      ghost var out := send.out + (lenBuf.value + data.value);
      var ok := EchoFrame(send, lenBuf.value, data.value);
      if !ok {
        OverBudget(out, s, Serve(recv.Rest(), recv.fin).frames, send.budget);
        return;
      }
    }
    NothingMore(s, send.out, rest, recv.fin, send.budget);
  }

  /** The single-shot branch, after the sentinel `rest` starts with. */
  method ServeOneShot(recv: RecvStream, send: SendStream, ghost s: Served, ghost rest: Chunk)
    requires recv.Valid() && !send.finished && |send.out| <= send.budget
    requires Remains(s, send.out, rest, recv.fin) && StartsWithSentinel(rest) && recv.Rest() == rest[4..]
    modifies recv, send
    ensures IsAnswer(s, send.out, send.finished, send.budget)
  {
    assert send.out + [] == send.out;
    var data := recv.ReadToEnd(LIMIT);
    if data.Some? {
      var _ := send.WriteAll(data.value);
      send.Finish();
    }
  }

  lemma OverBudget(a: Chunk, s: Served, more: Chunk, budget: nat)
    requires s.frames == a + more && |a| > budget
    ensures Upto(s.Out(), budget) == Upto(a, budget) && |s.frames| > budget
  {
    UptoPrefix(a, more, budget);
    if s.shot.Some? {
      UptoPrefix(s.frames, s.shot.value, budget);
    }
  }

  // ----- The clients -----

  /** `n` bytes from position `pos`, or a failed (ended or timed out) read. */
  function ReadAt(stream: Chunk, pos: nat, n: nat): Option<Chunk> {
    if pos + n <= |stream| then Some(stream[pos..pos + n]) else None
  }

  function FrameOf(payload: Chunk): Chunk {
    ToLe(|payload| % U32) + payload
  }

  predicate FitsFrame(payload: Chunk) {
    1 <= |payload| < LIMIT
  }

  /** What the parts of a frame say. */
  lemma FrameParts(payload: Chunk)
    ensures var frame := FrameOf(payload);
      |frame| == 4 + |payload| && FromLe(frame[..4]) == |payload| % U32 && frame[4..] == payload
  {
    FromTo(|payload| % U32);
    assert FrameOf(payload)[..4] == ToLe(|payload| % U32);
  }

  lemma FrameOfIsFrame(payload: Chunk)
    requires 1 <= |payload| < LIMIT
    ensures IsFrame(FrameOf(payload))
  {
    FrameParts(payload);
  }

  /** A client's stream: what it sent and how far it read. */
  datatype Session = Session(sent: Chunk, pos: nat)

  /** Reads a length and that many bytes at `pos`; the position after them and the bytes. */
  function ReadFrame(stream: Chunk, pos: nat): (nat, Option<Chunk>) {
    match ReadAt(stream, pos, 4)
    case None => (|stream|, None)
    case Some(lenBuf) =>
      match ReadAt(stream, pos + 4, FromLe(lenBuf))
      case None => (|stream|, None)
      case Some(data) => (pos + 4 + FromLe(lenBuf), Some(data))
  }

  lemma ReadFrameAfter(before: Chunk, stream: Chunk)
    ensures ReadFrame(before + stream, |before|) == (|before| + ReadFrame(stream, 0).0, ReadFrame(stream, 0).1)
  {
    var n := |before|;
    if |stream| >= 4 {
      assert (before + stream)[n..n + 4] == stream[0..4];
      var len := FromLe(stream[0..4]);
      if 4 + len <= |stream| {
        assert (before + stream)[n + 4..n + 4 + len] == stream[4..4 + len];
      }
    }
  }

  /** One round trip: sends a frame, reads back a length and that many bytes. The server's answer to all that was
      sent is what there is to read; by `ServeIsMonotone` it does not matter when it was written. */
  function Roundtrip(s: Session, payload: Chunk): (Session, Option<Chunk>) {
    var sent := s.sent + FrameOf(payload);
    var (pos, r) := ReadFrame(Serve(sent, false).Out(), s.pos);
    (Session(sent, pos), r)
  }

  /** All that was sent are whole frames, and all their echoes are read. */
  ghost predicate InStep(s: Session, fs: seq<Chunk>) {
    AllFrames(fs) && s.sent == Flatten(fs) && s.pos == |s.sent|
  }

  /** In step, what is there to read is the answer to the new frame alone. */
  lemma AnswerInStep(s: Session, fs: seq<Chunk>, frame: Chunk)
    requires InStep(s, fs)
    ensures Serve(s.sent + frame, false).Out() == s.sent + Serve(frame, false).Out()
  {
    ServeFrames(fs, frame, false);
    if Serve(frame, false).shot.Some? {
      Assoc(s.sent, Serve(frame, false).frames, Serve(frame, false).shot.value);
    }
  }

  lemma ServeOneFrame(frame: Chunk)
    requires IsFrame(frame)
    ensures Serve(frame, false).Out() == frame
  {
    assert frame[..|frame|] == frame && frame[|frame|..] == [] && frame + [] == frame;
  }

  /** What the server answers to one frame on its own, and what is read of it. */
  lemma FrameReturned(payload: Chunk)
    requires FitsFrame(payload)
    ensures var frame := FrameOf(payload);
      ReadFrame(Serve(frame, false).Out(), 0) == (|frame|, Some(payload))
  {
    var frame := FrameOf(payload);
    FrameOfIsFrame(payload);
    FrameParts(payload);
    ServeOneFrame(frame);
    assert frame[0..4] == frame[..4] && frame[4..4 + |payload|] == frame[4..];
  }

  lemma OtherNotReturned(payload: Chunk)
    requires !FitsFrame(payload)
    ensures ReadFrame(Serve(FrameOf(payload), false).Out(), 0).1 != Some(payload)
  {
    var frame := FrameOf(payload);
    FrameParts(payload);
    if StartsWithFrame(frame) {
      var out := Serve(frame, false).Out();
      assert out[0..4] == frame[..4];
    }
  }

  /** In step, a payload comes back exactly when it has 1 to 65535 bytes, and the session stays in step. */
  lemma RoundtripExactly(s: Session, fs: seq<Chunk>, payload: Chunk)
    requires InStep(s, fs)
    ensures Roundtrip(s, payload).1 == Some(payload) <==> 1 <= |payload| <= 65535
    ensures 1 <= |payload| <= 65535 ==> InStep(Roundtrip(s, payload).0, fs + [FrameOf(payload)])
  {
    var frame := FrameOf(payload);
    AnswerInStep(s, fs, frame);
    ReadFrameAfter(s.sent, Serve(frame, false).Out());
    if FitsFrame(payload) {
      FrameReturned(payload);
      FrameOfIsFrame(payload);
      FlattenSnoc(fs, frame);
    } else {
      OtherNotReturned(payload);
    }
  }

  function RunSession(payloads: seq<Chunk>): (Session, seq<Option<Chunk>>) {
    if payloads == [] then (Session([], 0), [])
    else
      var (s, rs) := RunSession(payloads[..|payloads| - 1]);
      var (s', r) := Roundtrip(s, payloads[|payloads| - 1]);
      (s', rs + [r])
  }

  /** Every payload, returned. */
  function Returned(payloads: seq<Chunk>): (rs: seq<Option<Chunk>>)
    ensures |rs| == |payloads| && forall i | 0 <= i < |rs| :: rs[i] == Some(payloads[i])
  {
    if payloads == [] then [] else Returned(payloads[..|payloads| - 1]) + [Some(payloads[|payloads| - 1])]
  }

  lemma SnocEqual<T>(a: seq<T>, x: T, b: seq<T>, y: T)
    ensures a + [x] == b + [y] <==> a == b && x == y
  {
    assert (a + [x])[..|a|] == a && (b + [y])[..|b|] == b;
    assert a + [x] == b + [y] ==> |a| == |b| && (a + [x])[|a|] == (b + [y])[|b|];
  }

  lemma RunOne(payloads: seq<Chunk>, n: nat)
    requires |payloads| == n + 1
    ensures RunSession(payloads).0 == Roundtrip(RunSession(payloads[..n]).0, payloads[n]).0
    ensures RunSession(payloads).1 ==
      RunSession(payloads[..n]).1 + [Roundtrip(RunSession(payloads[..n]).0, payloads[n]).1]
  {
  }

  ghost predicate AllFit(payloads: seq<Chunk>) {
    forall p | p in payloads :: FitsFrame(p)
  }

  lemma AllFitSnoc(payloads: seq<Chunk>, n: nat)
    requires |payloads| == n + 1
    ensures AllFit(payloads) <==> AllFit(payloads[..n]) && FitsFrame(payloads[n])
  {
    assert payloads == payloads[..n] + [payloads[n]];
  }

  /** The frames of the payloads sent so far. */
  function Frames(payloads: seq<Chunk>): seq<Chunk> {
    if payloads == [] then [] else Frames(payloads[..|payloads| - 1]) + [FrameOf(payloads[|payloads| - 1])]
  }

  lemma {:induction false} SessionStaysInStep(payloads: seq<Chunk>)
    requires AllFit(payloads)
    ensures InStep(RunSession(payloads).0, Frames(payloads))
  {
    if payloads == [] {
    } else {
      var n := |payloads| - 1;
      AllFitSnoc(payloads, n);
      SessionStaysInStep(payloads[..n]);
      RunOne(payloads, n);
      RoundtripExactly(RunSession(payloads[..n]).0, Frames(payloads[..n]), payloads[n]);
    }
  }

  /** Framed echo is the identity exactly on payloads of 1 to 65535 bytes: over any number of round trips on one
      stream, every payload comes back unchanged exactly when each has such a length. */
  lemma {:induction false} SessionIsIdentityExactly(payloads: seq<Chunk>)
    ensures RunSession(payloads).1 == Returned(payloads) <==> forall p | p in payloads :: 1 <= |p| <= 65535
  {
    if payloads == [] {
    } else {
      var n := |payloads| - 1;
      var s := RunSession(payloads[..n]).0;
      AllFitSnoc(payloads, n);
      SessionIsIdentityExactly(payloads[..n]);
      RunOne(payloads, n);
      SnocEqual(RunSession(payloads[..n]).1, Roundtrip(s, payloads[n]).1, Returned(payloads[..n]), Some(payloads[n]));
      if AllFit(payloads[..n]) {
        SessionStaysInStep(payloads[..n]);
        RoundtripExactly(s, Frames(payloads[..n]), payloads[n]);
      }
    }
  }

  /** A payload of more than 65535 bytes, as long as its length fits 32 bits, is not answered at all. */
  lemma LongPayloadNotReturned(payload: Chunk)
    requires 65536 <= |payload| < 0x1_0000_0000
    ensures RunSession([payload]).1 == [None]
  {
    var frame := FrameOf(payload);
    FrameParts(payload);
    NotAnswered(frame);
    RunOne([payload], 0);
    assert [] + frame == frame && [payload][..0] == [];
  }

  lemma NotAnswered(frame: Chunk)
    requires |frame| >= 4 && LIMIT <= FromLe(frame[..4])
    ensures Serve(frame, false).Out() == []
  {
  }

  /** The server has met a length of zero and answers nothing any more. */
  ghost predicate Stuck(s: Session, fs: seq<Chunk>, rest: Chunk) {
    && AllFrames(fs) && s.sent == Flatten(fs) + rest && s.pos == |Flatten(fs)|
    && |rest| >= 4 && FromLe(rest[..4]) == 0
  }

  lemma StuckAnswersNothing(s: Session, fs: seq<Chunk>, rest: Chunk)
    requires Stuck(s, fs, rest)
    ensures Serve(s.sent, false).Out() == Flatten(fs) && ReadFrame(Serve(s.sent, false).Out(), s.pos) == (s.pos, None)
  {
    ServeExactly(s.sent, false, fs, rest);
  }

  lemma StuckStays(s: Session, fs: seq<Chunk>, rest: Chunk, payload: Chunk)
    requires Stuck(s, fs, rest)
    ensures Roundtrip(s, payload).1 == None && Stuck(Roundtrip(s, payload).0, fs, rest + FrameOf(payload))
  {
    var s' := Session(s.sent + FrameOf(payload), s.pos);
    Assoc(Flatten(fs), rest, FrameOf(payload));
    assert (rest + FrameOf(payload))[..4] == rest[..4];
    StuckAnswersNothing(s', fs, rest + FrameOf(payload));
  }

  lemma EmptyPayloadSticks(s: Session, fs: seq<Chunk>)
    requires InStep(s, fs)
    ensures Roundtrip(s, []).1 == None && Stuck(Roundtrip(s, []).0, fs, FrameOf([]))
  {
    var s' := Session(s.sent + FrameOf([]), s.pos);
    FrameParts([]);
    StuckAnswersNothing(s', fs, FrameOf([]));
  }

  /** What came back is `before`, then nothing any more. */
  ghost predicate Ended(
      s: Session, rs: seq<Option<Chunk>>, fs: seq<Chunk>, rest: Chunk, before: seq<Option<Chunk>>)
  {
    Stuck(s, fs, rest) && before <= rs && forall i | |before| <= i < |rs| :: rs[i] == None
  }

  lemma StillEnded(
      s: Session, rs: seq<Option<Chunk>>, fs: seq<Chunk>, rest: Chunk, before: seq<Option<Chunk>>, payload: Chunk)
    requires Ended(s, rs, fs, rest, before)
    ensures var (s', r) := Roundtrip(s, payload); Ended(s', rs + [r], fs, rest + FrameOf(payload), before)
  {
    StuckStays(s, fs, rest, payload);
  }

  lemma NowEnded(s: Session, rs: seq<Option<Chunk>>, fs: seq<Chunk>)
    requires InStep(s, fs)
    ensures var (s', r) := Roundtrip(s, []); Ended(s', rs + [r], fs, FrameOf([]), rs)
  {
    EmptyPayloadSticks(s, fs);
  }

  /** After good payloads and an empty one nothing is returned any more, not even for payloads of a good length. */
  lemma {:induction false} EmptyPayloadEndsSession(good: seq<Chunk>, more: seq<Chunk>) returns (rest: Chunk)
    requires AllFit(good)
    ensures var (s, rs) := RunSession(good + [[]] + more);
      |rs| == |good| + 1 + |more| && Ended(s, rs, Frames(good), rest, RunSession(good).1)
  {
    var all, n := good + [[]] + more, |good| + |more|;
    SessionLength(all);
    RunOne(all, n);
    if more == [] {
      assert all[..n] == good;
      SessionStaysInStep(good);
      NowEnded(RunSession(good).0, RunSession(good).1, Frames(good));
      rest := FrameOf([]);
    } else {
      var front, last := more[..|more| - 1], more[|more| - 1];
      assert all[..n] == good + [[]] + front && all[n] == last;
      rest := EmptyPayloadEndsSession(good, front);
      var (s, rs) := RunSession(all[..n]);
      StillEnded(s, rs, Frames(good), rest, RunSession(good).1, last);
      rest := rest + FrameOf(last);
    }
  }

  lemma {:induction false} SessionLength(payloads: seq<Chunk>)
    ensures |RunSession(payloads).1| == |payloads|
  {
    if payloads == [] {
    } else {
      SessionLength(payloads[..|payloads| - 1]);
    }
  }

  /** What the single-shot clients send before they finish the stream. */
  function SingleShot(payload: Chunk): Chunk {
    ToLe(LIMIT) + payload
  }

  lemma SingleShotStarts(payload: Chunk)
    ensures StartsWithSentinel(SingleShot(payload)) && SingleShot(payload)[4..] == payload
    ensures SingleShot(payload)[..4] == [0, 0, 1, 0]
  {
    FromTo(LIMIT);
    assert SingleShot(payload)[..4] == ToLe(LIMIT);
  }

  lemma ServeSentinel(input: Chunk)
    requires StartsWithSentinel(input)
    ensures Serve(input, true).Out() == if |input| - 4 <= LIMIT then input[4..] else []
  {
    assert [] + input[4..] == input[4..];
  }

  /** The single-shot round trip, on a stream of its own: it succeeds, with the payload unchanged, exactly up to 65536
      bytes. */
  lemma SingleShotExactly(payload: Chunk)
    ensures ReadAt(Serve(SingleShot(payload), true).Out(), 0, |payload|) ==
            if |payload| <= 65536 then Some(payload) else None
  {
    assert payload[0..|payload|] == payload;
    SingleShotStarts(payload);
    ServeSentinel(SingleShot(payload));
  }

  /** A client's two ends of one stream: what it reads is the server's answer to all it has sent. The connection takes
      `budget` bytes before writes fail. */
  class ClientStream {
    const budget: nat
    var sent: Chunk
    var fin: bool
    var pos: nat

    function View(): Session
      reads this
    {
      Session(sent, pos)
    }

    ghost function Answer(): Chunk
      reads this
    {
      Serve(sent, fin).Out()
    }

    constructor (budget: nat)
      ensures View() == Session([], 0) && !fin && this.budget == budget
    {
      this.budget := budget;
      sent, fin, pos := [], false, 0;
    }

    method WriteAll(bytes: Chunk) returns (ok: bool)
      requires |sent| <= budget
      modifies this`sent
      ensures ok <==> |old(sent) + bytes| <= budget
      ensures sent == Upto(old(sent) + bytes, budget)
    {
      ok := |bytes| <= budget - |sent|;
      sent := sent + if ok then bytes else bytes[..budget - |sent|];
    }

    method Finish()
      modifies this`fin
      ensures fin
    {
      fin := true;
    }

    /** A failed read, at the end of the stream or timed out, leaves nothing to read. */
    method ReadExact(n: nat) returns (r: Option<Chunk>)
      modifies this`pos
      ensures r == ReadAt(Answer(), old(pos), n)
      ensures pos == if r.Some? then old(pos) + n else |Answer()|
    {
      var answer := Serve(sent, fin).Out();
      r := ReadAt(answer, pos, n);
      pos := if r.Some? then pos + n else |answer|;
    }

    /** The length, then the payload. */
    method WriteBoth(lenBuf: Chunk, payload: Chunk) returns (ok: bool)
      requires |sent| <= budget
      modifies this`sent
      ensures ok <==> |old(sent) + (lenBuf + payload)| <= budget
      ensures sent == Upto(old(sent) + (lenBuf + payload), budget)
    {
      ghost var before := sent;
      Assoc(before, lenBuf, payload);
      ok := WriteAll(lenBuf);
      if !ok {
        UptoPrefix(before + lenBuf, payload, budget);
        return;
      }
      ok := WriteAll(payload);
    }

    /** Writes one frame and reads one back; the stream stays open for the next. A frame that cannot be written whole
        fails the round trip. */
    method StreamRoundtrip(payload: Chunk) returns (r: Option<Chunk>)
      requires !fin && |sent| <= budget
      modifies this`sent, this`pos
      ensures |sent| <= budget
      ensures |old(sent) + FrameOf(payload)| <= budget ==> (View(), r) == Roundtrip(old(View()), payload)
      ensures |old(sent) + FrameOf(payload)| > budget ==>
        (View(), r) == (Session(Upto(old(sent) + FrameOf(payload), budget), old(pos)), None)
    {
      var ok := WriteBoth(ToLe(|payload| % U32), payload);
      if !ok {
        return None;
      }
      var lenBuf := ReadExact(4);
      if lenBuf.None? {
        return None;
      }
      r := ReadExact(FromLe(lenBuf.value));
    }

    /** The sentinel, the payload and the end of the stream; then reads as many bytes back. */
    method ConnectionRoundtrip(payload: Chunk) returns (r: Option<Chunk>)
      requires View() == Session([], 0) && !fin
      modifies this
      ensures r == if |payload| <= 65536 && 4 + |payload| <= budget then Some(payload) else None
    {
      var ok := WriteBoth(ToLe(LIMIT), payload);
      if !ok {
        return None;
      }
      Finish();
      assert sent == SingleShot(payload);
      SingleShotExactly(payload);
      r := ReadExact(|payload|);
    }
  }
}
