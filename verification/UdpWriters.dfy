/** The writers the protocol engines send through: a loopback buffer, a writer to a fixed peer, and a server writer
    that buffers until it learns its peer. Several writers share the same cells. */
module UdpWriters {
  import opened Chunks
  import opened Deframer

  const ATTEMPTS: nat := 10

  datatype SendOutcome = SentOk | WouldBlock | Failed

  datatype WriteResult = Wrote(n: nat) | WriteError

  /** A shared mutable cell. */
  class Cell<T> {
    var v: T

    constructor (v: T)
      ensures this.v == v
    {
      this.v := v;
    }
  }

  /** A datagram socket; `outcome` answers the n-th `send_to`. */
  class Socket {
    const outcome: nat -> SendOutcome
    var tries: nat
    var sent: seq<(nat, Chunk)>

    constructor (outcome: nat -> SendOutcome)
      ensures this.outcome == outcome && tries == 0 && sent == []
    {
      this.outcome := outcome;
      tries, sent := 0, [];
    }

    method SendTo(buf: Chunk, peer: nat) returns (o: SendOutcome)
      modifies this
      ensures o == outcome(old(tries)) && tries == old(tries) + 1
      ensures sent == old(sent) + if o == SentOk then [(peer, buf)] else []
    {
      o := outcome(tries);
      sent := sent + if o == SentOk then [(peer, buf)] else [];
      tries := tries + 1;
    }
  }

  /** Appends to the buffer the deframer reads. */
  class LoopbackWriter {
    const buf: Buffer

    constructor (buf: Buffer)
      ensures this.buf == buf
    {
      this.buf := buf;
    }

    method Write(bytes: Chunk) returns (n: nat)
      modifies buf
      ensures buf.data == old(buf.data) + bytes && n == |bytes|
    {
      buf.data := buf.data + bytes;
      n := |bytes|;
    }
  }

  /** How many of the next `n` sends would block before one is decided. */
  function Blocked(outcome: nat -> SendOutcome, from: nat, n: nat): nat
    decreases n
  {
    if n == 0 || outcome(from) != WouldBlock then 0 else 1 + Blocked(outcome, from + 1, n - 1)
  }

  /** `Blocked` finds the first of the `n` sends that does not block. */
  lemma {:induction false} BlockedExactly(outcome: nat -> SendOutcome, from: nat, n: nat, k: nat)
    ensures Blocked(outcome, from, n) == k <==>
      && k <= n && (k < n ==> outcome(from + k) != WouldBlock)
      && forall i | from <= i < from + k :: outcome(i) == WouldBlock
    decreases n
  {
    if n != 0 && outcome(from) == WouldBlock && 0 < k {
      BlockedExactly(outcome, from + 1, n - 1, k - 1);
    }
  }

  /** The outcome of a send tried up to `ATTEMPTS` times. */
  function Decided(outcome: nat -> SendOutcome, from: nat): SendOutcome {
    var k := Blocked(outcome, from, ATTEMPTS);
    if k < ATTEMPTS then outcome(from + k) else WouldBlock
  }

  /** The outcome is that of the first of ten attempts that does not block, if there is one. */
  lemma DecidedExactly(outcome: nat -> SendOutcome, from: nat, o: SendOutcome)
    requires o != WouldBlock
    ensures Decided(outcome, from) == o <==>
      exists k: nat | k < 10 :: FirstDecided(outcome, from, k) && outcome(from + k) == o
  {
    var n := Blocked(outcome, from, ATTEMPTS);
    BlockedExactly(outcome, from, ATTEMPTS, n);
    if Decided(outcome, from) == o {
      assert FirstDecided(outcome, from, n);
    } else if k: nat :| k < 10 && FirstDecided(outcome, from, k) && outcome(from + k) == o {
      BlockedExactly(outcome, from, ATTEMPTS, k);
      assert false;
    }
  }

  /** The `k`-th attempt from `from` is the first that does not block. */
  predicate FirstDecided(outcome: nat -> SendOutcome, from: nat, k: nat) {
    outcome(from + k) != WouldBlock && forall i | from <= i < from + k :: outcome(i) == WouldBlock
  }

  function Tries(outcome: nat -> SendOutcome, from: nat): nat {
    Min(Blocked(outcome, from, ATTEMPTS) + 1, ATTEMPTS)
  }

  /** A send makes an attempt more than those that block, but never more than ten. */
  lemma TriesExactly(outcome: nat -> SendOutcome, from: nat, k: nat)
    ensures k < 10 && FirstDecided(outcome, from, k) ==> Tries(outcome, from) == k + 1
    ensures (forall i | from <= i < from + 10 :: outcome(i) == WouldBlock) ==> Tries(outcome, from) == 10
  {
    BlockedExactly(outcome, from, ATTEMPTS, k);
    BlockedExactly(outcome, from, ATTEMPTS, ATTEMPTS);
  }

  /** Sends one datagram, retrying while the socket would block. After ten blocked attempts it gives up and still
      reports the buffer as written. */
  method SendRetrying(socket: Socket, buf: Chunk, peer: nat) returns (r: WriteResult)
    modifies socket
    ensures socket.tries == old(socket.tries) + Tries(socket.outcome, old(socket.tries))
    ensures socket.sent == old(socket.sent) +
      if Decided(socket.outcome, old(socket.tries)) == SentOk then [(peer, buf)] else []
    ensures r == if Decided(socket.outcome, old(socket.tries)) == Failed then WriteError else Wrote(|buf|)
  {
    ghost var from := socket.tries;
    for i := 0 to ATTEMPTS
      invariant socket.tries == from + i && socket.sent == old(socket.sent)
      invariant forall j | from <= j < from + i :: socket.outcome(j) == WouldBlock
    {
      BlockedExactly(socket.outcome, from, ATTEMPTS, i);
      var o := socket.SendTo(buf, peer);
      match o {
        case SentOk => return Wrote(|buf|);
        case Failed => return WriteError;
        case WouldBlock =>
      }
    }
    BlockedExactly(socket.outcome, from, ATTEMPTS, ATTEMPTS);
    return Wrote(|buf|);
  }

  /** The writer to a fixed peer. */
  class ClientUdpWriter {
    const socket: Socket
    const peer: nat

    constructor (socket: Socket, peer: nat)
      ensures this.socket == socket && this.peer == peer
    {
      this.socket, this.peer := socket, peer;
    }

    /** `Wrote` is true to its word exactly when one of the ten attempts is not blocked. */
    method Write(buf: Chunk) returns (r: WriteResult)
      modifies socket
      ensures r.Wrote? ==>
        (socket.sent == old(socket.sent) + [(peer, buf)] <==>
         Blocked(socket.outcome, old(socket.tries), 10) < 10)
      ensures r == WriteError ==> socket.sent == old(socket.sent)
    {
      r := SendRetrying(socket, buf, peer);
    }
  }

  // ----- The server writer -----

  /** What the writers share, with the bytes written so far and those a failed or exhausted send took with it. */
  datatype Shared = Shared(
    buffer: Chunk, peer: Option<nat>, tries: nat, sent: seq<(nat, Chunk)>, written: Chunk, lost: Chunk)

  function Payloads(sent: seq<(nat, Chunk)>): Chunk {
    if sent == [] then [] else Payloads(sent[..|sent| - 1]) + sent[|sent| - 1].1
  }

  /** A decided send of `buf`. */
  function Sent(s: Shared, peer: nat, buf: Chunk, delivered: bool): Shared {
    if delivered then s.(sent := s.sent + [(peer, buf)]) else s.(lost := s.lost + buf)
  }

  function WriteStep(s: Shared, buf: Chunk, outcome: nat -> SendOutcome): Shared {
    var s' := s.(written := s.written + buf);
    if s.peer.None? then s'.(buffer := s.buffer + buf)
    else
      Sent(s', s.peer.value, buf, Decided(outcome, s.tries) == SentOk).(tries := s.tries + Tries(outcome, s.tries))
  }

  /** What the caller of that write is told. */
  function WriteReturns(s: Shared, buf: Chunk, outcome: nat -> SendOutcome): WriteResult {
    if s.peer.Some? && Decided(outcome, s.tries) == Failed then WriteError else Wrote(|buf|)
  }

  function SendBufferedStep(s: Shared, peer: nat, outcome: nat -> SendOutcome): Shared {
    var s' := s.(peer := Some(peer), buffer := []);
    if s.buffer == [] then s'
    else Sent(s', peer, s.buffer, outcome(s.tries) == SentOk).(tries := s.tries + 1)
  }

  /** What went through all the writers that share one socket, buffer and peer. */
  class History {
    ghost var written: Chunk
    ghost var lost: Chunk

    constructor ()
      ensures written == [] && lost == []
    {
      written, lost := [], [];
    }
  }

  class ServerUdpWriter {
    const socket: Socket
    const buffer: Cell<Chunk>
    const peer: Cell<Option<nat>>
    const history: History

    ghost predicate Valid() {
      buffer as object != peer as object
    }

    ghost function View(): Shared
      reads socket, buffer, peer, history
    {
      Shared(buffer.v, peer.v, socket.tries, socket.sent, history.written, history.lost)
    }

    constructor (socket: Socket, buffer: Cell<Chunk>, peer: Cell<Option<nat>>, history: History)
      requires buffer as object != peer as object
      ensures Valid() && this.socket == socket && this.buffer == buffer && this.peer == peer && this.history == history
    {
      this.socket, this.buffer, this.peer, this.history := socket, buffer, peer, history;
    }

    /** The peer becomes known; what was buffered is taken and sent once, without retrying. */
    method SendBuffered(to: nat) returns (ok: bool)
      requires Valid()
      modifies socket, buffer, peer, history
      ensures View() == SendBufferedStep(old(View()), to, socket.outcome)
      ensures ok <==> old(buffer.v) == [] || socket.outcome(old(socket.tries)) == SentOk
    {
      peer.v := Some(to);
      var buf := buffer.v;
      buffer.v := [];
      ok := true;
      if buf != [] {
        var o := socket.SendTo(buf, to);
        if o != SentOk {
          history.lost := history.lost + buf;
          ok := false;
        }
      }
    }

    method Write(buf: Chunk) returns (r: WriteResult)
      requires Valid()
      modifies socket, buffer, history
      ensures View() == WriteStep(old(View()), buf, socket.outcome)
      ensures r == WriteReturns(old(View()), buf, socket.outcome)
    {
      history.written := history.written + buf;
      if peer.v.Some? {
        ghost var delivered := Decided(socket.outcome, socket.tries) == SentOk;
        r := SendRetrying(socket, buf, peer.v.value);
        if !delivered {
          history.lost := history.lost + buf;
        }
      } else {
        buffer.v := buffer.v + buf;
        r := Wrote(|buf|);
      }
    }
  }

  /** A write before the peer is known only buffers; after that it sends the buffer as one datagram to the peer exactly
      when the first of ten attempts that does not block succeeds, and buffers nothing. */
  lemma WriteExactly(s: Shared, buf: Chunk, outcome: nat -> SendOutcome)
    ensures var s' := WriteStep(s, buf, outcome);
      && s'.peer == s.peer
      && (s.peer.None? ==> s'.buffer == s.buffer + buf && s'.sent == s.sent && s'.tries == s.tries)
      && (s.peer.Some? ==>
           && s'.buffer == s.buffer
           && s'.sent == s.sent +
                if exists k: nat | k < 10 :: FirstDecided(outcome, s.tries, k) && outcome(s.tries + k) == SentOk
                then [(s.peer.value, buf)] else [])
  {
    DecidedExactly(outcome, s.tries, SentOk);
    assert s.sent + [] == s.sent;
  }

  /** Announcing the peer empties the buffer with a single attempt at one datagram, and makes none when nothing is
      buffered. */
  lemma AnnounceExactly(s: Shared, peer: nat, outcome: nat -> SendOutcome)
    ensures var s' := SendBufferedStep(s, peer, outcome);
      && s'.peer == Some(peer) && s'.buffer == [] && s'.written == s.written
      && s'.tries == s.tries + (if s.buffer == [] then 0 else 1)
      && s'.sent == s.sent + if s.buffer != [] && outcome(s.tries) == SentOk then [(peer, s.buffer)] else []
  {
    assert s.sent + [] == s.sent;
  }

  datatype Event = Write(buf: Chunk) | SendBuffered(peer: nat)

  function Step(s: Shared, e: Event, outcome: nat -> SendOutcome): Shared {
    match e
    case Write(buf) => WriteStep(s, buf, outcome)
    case SendBuffered(peer) => SendBufferedStep(s, peer, outcome)
  }

  function Exec(es: seq<Event>, outcome: nat -> SendOutcome): Shared {
    if es == [] then Shared([], None, 0, [], [], [])
    else Step(Exec(es[..|es| - 1], outcome), es[|es| - 1], outcome)
  }

  /** The peer announced last. */
  function LatestPeer(es: seq<Event>): Option<nat> {
    if es == [] then None
    else if es[|es| - 1].SendBuffered? then Some(es[|es| - 1].peer)
    else LatestPeer(es[..|es| - 1])
  }

  lemma {:induction false} PeerIsLatest(es: seq<Event>, outcome: nat -> SendOutcome)
    ensures Exec(es, outcome).peer == LatestPeer(es)
  {
    if es == [] {
    } else {
      PeerIsLatest(es[..|es| - 1], outcome);
    }
  }

  /** Each event sends at most one datagram, always to the peer announced last, and before any was announced none. */
  lemma SendsToLatestPeer(es: seq<Event>, outcome: nat -> SendOutcome)
    requires es != []
    ensures var before, after := Exec(es[..|es| - 1], outcome).sent, Exec(es, outcome).sent;
      && before <= after && |after| <= |before| + 1
      && (after != before ==> Some(after[|before|].0) == LatestPeer(es))
  {
    PeerIsLatest(es, outcome);
  }

  lemma PayloadsSnoc(sent: seq<(nat, Chunk)>, to: nat, buf: Chunk)
    ensures Payloads(sent + [(to, buf)]) == Payloads(sent) + buf
  {
    assert (sent + [(to, buf)])[..|sent|] == sent;
  }

  /** The bytes written are those sent, `held` and those lost; in that order while none are lost. */
  ghost predicate Accounted(s: Shared, held: Chunk) {
    && |s.written| == |Payloads(s.sent)| + |held| + |s.lost|
    && (s.lost == [] ==> s.written == Payloads(s.sent) + held)
  }

  ghost predicate Inv(s: Shared) {
    Accounted(s, s.buffer) && (s.peer.Some? ==> s.buffer == [])
  }

  lemma SentIsAccounted(s: Shared, peer: nat, buf: Chunk, delivered: bool)
    requires Accounted(s, buf)
    ensures Accounted(Sent(s, peer, buf, delivered), [])
  {
    if delivered {
      PayloadsSnoc(s.sent, peer, buf);
      assert Payloads(s.sent) + buf + [] == Payloads(s.sent) + buf;
    }
  }

  lemma WriteKeepsInv(s: Shared, buf: Chunk, outcome: nat -> SendOutcome)
    requires Inv(s)
    ensures Inv(WriteStep(s, buf, outcome))
  {
    var s' := s.(written := s.written + buf);
    Assoc(Payloads(s.sent), s.buffer, buf);
    assert Accounted(s', s.buffer + buf);
    if s.peer.Some? {
      assert [] + buf == buf;
      SentIsAccounted(s', s.peer.value, buf, Decided(outcome, s.tries) == SentOk);
    }
  }

  lemma SendBufferedKeepsInv(s: Shared, to: nat, outcome: nat -> SendOutcome)
    requires Inv(s)
    ensures Inv(SendBufferedStep(s, to, outcome))
  {
    if s.buffer != [] {
      SentIsAccounted(s.(peer := Some(to), buffer := []), to, s.buffer, outcome(s.tries) == SentOk);
    }
  }

  lemma {:induction false} ExecKeepsInv(es: seq<Event>, outcome: nat -> SendOutcome)
    ensures Inv(Exec(es, outcome))
  {
    if es == [] {
    } else {
      var s := Exec(es[..|es| - 1], outcome);
      ExecKeepsInv(es[..|es| - 1], outcome);
      match es[|es| - 1]
      case Write(buf) => WriteKeepsInv(s, buf, outcome);
      case SendBuffered(to) => SendBufferedKeepsInv(s, to, outcome);
    }
  }

  /** The send the event makes, if it makes one and there is anything to send, goes through. */
  predicate GoesThrough(s: Shared, e: Event, outcome: nat -> SendOutcome) {
    match e
    case Write(buf) => s.peer.None? || buf == [] || Decided(outcome, s.tries) == SentOk
    case SendBuffered(_) => s.buffer == [] || outcome(s.tries) == SentOk
  }

  /** The run's `i`-th event is one whose send goes through. */
  predicate ThroughAt(es: seq<Event>, outcome: nat -> SendOutcome, i: nat)
    requires i < |es|
  {
    GoesThrough(Exec(es[..i], outcome), es[i], outcome)
  }

  lemma LostByOne(s: Shared, e: Event, outcome: nat -> SendOutcome)
    ensures Step(s, e, outcome).lost == [] <==> s.lost == [] && GoesThrough(s, e, outcome)
  {
  }

  ghost predicate AllThrough(es: seq<Event>, outcome: nat -> SendOutcome) {
    forall i: nat | i < |es| :: ThroughAt(es, outcome, i)
  }

  lemma AllThroughSnoc(es: seq<Event>, outcome: nat -> SendOutcome, n: nat)
    requires |es| == n + 1
    ensures AllThrough(es, outcome) <==>
      AllThrough(es[..n], outcome) && GoesThrough(Exec(es[..n], outcome), es[n], outcome)
  {
    forall i: nat | i < n ensures ThroughAt(es[..n], outcome, i) == ThroughAt(es, outcome, i) {
      assert es[..n][..i] == es[..i];
    }
    assert ThroughAt(es, outcome, n) == GoesThrough(Exec(es[..n], outcome), es[n], outcome);
  }

  lemma {:induction false} LostByAny(es: seq<Event>, outcome: nat -> SendOutcome)
    ensures Exec(es, outcome).lost == [] <==> AllThrough(es, outcome)
  {
    if es == [] {
    } else {
      var n := |es| - 1;
      LostByAny(es[..n], outcome);
      LostByOne(Exec(es[..n], outcome), es[n], outcome);
      AllThroughSnoc(es, outcome, n);
    }
  }

  /** Buffer-until-peer: through any interleaving of writes and peer announcements the buffer is empty once the peer
      is known, and the payloads sent, then the buffer, are all bytes written, in order, exactly when every send with
      bytes in it goes through. */
  lemma {:induction false} WrittenIsSentOrBuffered(es: seq<Event>, outcome: nat -> SendOutcome)
    ensures var s := Exec(es, outcome);
      && Inv(s)
      && (s.written == Payloads(s.sent) + s.buffer <==> AllThrough(es, outcome))
  {
    ExecKeepsInv(es, outcome);
    LostByAny(es, outcome);
    var s := Exec(es, outcome);
    assert |Payloads(s.sent) + s.buffer| == |Payloads(s.sent)| + |s.buffer|;
  }

  /** A write is reported written while its bytes are neither sent nor buffered exactly when the peer is known and all
      ten attempts block. */
  lemma ReportedButLostExactly(s: Shared, buf: Chunk, outcome: nat -> SendOutcome)
    requires buf != []
    ensures WriteReturns(s, buf, outcome) == Wrote(|buf|) && WriteStep(s, buf, outcome).lost != s.lost <==>
      s.peer.Some? && forall k | s.tries <= k < s.tries + 10 :: outcome(k) == WouldBlock
  {
    BlockedExactly(outcome, s.tries, ATTEMPTS, Blocked(outcome, s.tries, ATTEMPTS));
    BlockedExactly(outcome, s.tries, ATTEMPTS, ATTEMPTS);
  }

  /** The caller of a write is told an error exactly when the peer is known and the first of ten attempts that does not
      block fails; in every other case, sent, buffered or given up, it is told that the whole buffer is written. */
  lemma ReportExactly(s: Shared, buf: Chunk, outcome: nat -> SendOutcome)
    ensures WriteReturns(s, buf, outcome) == WriteError <==>
      s.peer.Some? && exists k: nat | k < 10 :: FirstDecided(outcome, s.tries, k) && outcome(s.tries + k) == Failed
    ensures WriteReturns(s, buf, outcome) != WriteError ==> WriteReturns(s, buf, outcome) == Wrote(|buf|)
  {
    DecidedExactly(outcome, s.tries, Failed);
  }

  /** From the start: the peer becomes known, ten attempts block, and one byte is reported written that is neither sent
      nor buffered. */
  lemma ExhaustedWriteIsReportedWritten()
    ensures var outcome: nat -> SendOutcome := _ => WouldBlock;
      var s, s' := Exec([SendBuffered(1)], outcome), Exec([SendBuffered(1), Write([7])], outcome);
      && WriteReturns(s, [7], outcome) == Wrote(1) && s' == WriteStep(s, [7], outcome)
      && s'.sent == [] && s'.buffer == []
  {
    var outcome: nat -> SendOutcome := _ => WouldBlock;
    var es := [SendBuffered(1), Write([7])];
    assert es[..1] == [SendBuffered(1)] && [SendBuffered(1)][..0] == [];
    assert Exec([SendBuffered(1)], outcome) == Shared([], Some(1), 0, [], [], []);
    BlockedExactly(outcome, 0, ATTEMPTS, ATTEMPTS);
  }
}
