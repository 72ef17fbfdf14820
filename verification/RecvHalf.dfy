/** The reading half of a bridged stream: one carry-over chunk in front of the receive channel. */
module RecvHalf {
  import opened Chunks
  import opened Channels

  const RECV_CAPACITY: nat := 4096

  datatype ReadPoll = Ready | Pending

  /** The carry-over buffer: `pending[off..]` has been received but not yet delivered. */
  datatype Reader = Reader(pending: Chunk, off: nat) {
    ghost predicate Valid() {
      off < |pending| || (off == 0 && pending == [])
    }

    ghost function Rest(): Chunk
      requires Valid()
    {
      pending[off..]
    }
  }

  datatype ReadOutcome = ReadOutcome(rd: Reader, chan: Chan<Chunk>, poll: ReadPoll, out: Chunk)

  /** Copies as much of `p[off..]` as fits and clears the carry-over once it is used up. */
  function CopyOut(p: Chunk, off: nat, room: nat): (r: (Reader, Chunk))
    requires off < |p|
    ensures r.0.Valid() && r.1 + r.0.Rest() == p[off..] && |r.1| == Min(|p| - off, room)
  {
    var n := Min(|p| - off, room);
    (if off + n >= |p| then Reader([], 0) else Reader(p, off + n), p[off..off + n])
  }

  function Poll(rd: Reader, chan: Chan<Chunk>, room: nat): ReadOutcome {
    if rd.off < |rd.pending| then
      var (rd', out) := CopyOut(rd.pending, rd.off, room);
      ReadOutcome(rd', chan, Ready, out)
    else
      match chan.RecvResult()
      case Got(v) =>
        if v == [] then ReadOutcome(rd, chan.TryRecv(), Ready, [])
        else
          var (rd', out) := CopyOut(v, 0, room);
          ReadOutcome(rd', chan.TryRecv(), Ready, out)
      case Ended => ReadOutcome(rd, chan, Ready, [])
      case Empty => ReadOutcome(rd, chan, Pending, [])
  }

  /** What is still to come, in order: the carry-over, then the queue. */
  ghost function Ahead(rd: Reader, chan: Chan<Chunk>): Chunk
    requires rd.Valid()
  {
    rd.Rest() + Flatten(chan.items)
  }

  /** The next read finds the end of the stream: an end marker is next, or the channel is closed and drained. */
  ghost predicate AtEnd(rd: Reader, chan: Chan<Chunk>)
    requires rd.Valid()
  {
    rd.Rest() == [] && if chan.items == [] then !chan.txOpen else chan.items[0] == []
  }

  /** One read moves bytes from the front of what is ahead into the buffer; it waits exactly when nothing can
      be reported, and it reports zero bytes into a buffer with room exactly at the end of the stream. */
  lemma PollMeaning(rd: Reader, chan: Chan<Chunk>, room: nat)
    requires rd.Valid()
    ensures var r := Poll(rd, chan, room);
      && r.rd.Valid()
      && r.out + Ahead(r.rd, r.chan) == Ahead(rd, chan)
      && |r.out| <= room
      && (r.poll == Pending <==> rd.Rest() == [] && chan.items == [] && chan.txOpen)
      && (room > 0 ==> (r.poll == Ready && r.out == [] <==> AtEnd(rd, chan)))
  {
    if rd.Rest() == [] && chan.items != [] && chan.items[0] != [] {
      var r := Poll(rd, chan, room);
      calc {
        r.out + (r.rd.Rest() + Flatten(chan.items[1..]));
        (r.out + r.rd.Rest()) + Flatten(chan.items[1..]);
        chan.items[0] + Flatten(chan.items[1..]);
      }
    } else if rd.Rest() != [] {
      var r := Poll(rd, chan, room);
      calc {
        r.out + (r.rd.Rest() + Flatten(chan.items));
        (r.out + r.rd.Rest()) + Flatten(chan.items);
      }
    }
  }

  /** The half the application reads from; it shares `recvRx` with the packet loop. */
  class SlipstreamRecvHalf {
    const recvRx: Channel<Chunk>
    var pending: Chunk
    var pendingOff: nat

    ghost function View(): Reader
      reads this
    {
      Reader(pending, pendingOff)
    }

    constructor (recvRx: Channel<Chunk>)
      ensures this.recvRx == recvRx && View() == Reader([], 0)
    {
      this.recvRx := recvRx;
      pending, pendingOff := [], 0;
    }

    /** `buf` holds what the caller's buffer received, `room` is what it had left. */
    method PollRead(room: nat) returns (r: ReadPoll, buf: Chunk)
      requires View().Valid()
      modifies this, recvRx
      ensures View().Valid()
      ensures ReadOutcome(View(), recvRx.st, r, buf) == Poll(old(View()), old(recvRx.st), room)
      ensures buf + Ahead(View(), recvRx.st) == old(Ahead(View(), recvRx.st))
      ensures room > 0 ==> (r == Ready && buf == [] <==> old(AtEnd(View(), recvRx.st)))
    {
      PollMeaning(View(), recvRx.st, room);
      buf := [];
      if pendingOff < |pending| {
        var n := Min(|pending| - pendingOff, room);
        buf := pending[pendingOff..pendingOff + n];
        pendingOff := pendingOff + n;
        if pendingOff >= |pending| {
          pending, pendingOff := [], 0;
        }
        return Ready, buf;
      }
      var got := recvRx.TryRecv();
      match got {
        case Got(v) =>
          if v == [] {
            return Ready, [];
          }
          pending, pendingOff := v, 0;
          var n := Min(|pending|, room);
          buf := pending[..n];
          pendingOff := n;
          if pendingOff >= |pending| {
            pending, pendingOff := [], 0;
          }
          return Ready, buf;
        case Ended => return Ready, [];
        case Empty => return Pending, [];
      }
    }
  }

  // ----- Runs: arrivals from the packet loop interleaved with reads -----

  datatype Event =
    | Arrive(c: Chunk)   // the packet loop offers a chunk; a refused offer drops it
    | HangUp             // the packet loop drops its sending end
    | Read(room: nat)
    | DropHalf           // the application drops the reading half

  /** `arrived` and `accepted` record what was offered to and taken by the channel, `taken` what left it,
      `delivered` the bytes handed to the application. */
  datatype Inbound = Inbound(
    rd: Reader, chan: Chan<Chunk>,
    arrived: seq<Chunk>, accepted: seq<Chunk>, taken: seq<Chunk>, delivered: Chunk)

  function Start(cap: nat): Inbound {
    Inbound(Reader([], 0), NewChan(cap), [], [], [], [])
  }

  function Step(s: Inbound, e: Event): Inbound {
    match e
    case Arrive(c) =>
      if !s.chan.txOpen then s
      else s.(chan := s.chan.TrySend(c),
              arrived := s.arrived + [c],
              accepted := if s.chan.Accepts() then s.accepted + [c] else s.accepted)
    case HangUp => s.(chan := s.chan.(txOpen := false))
    case Read(room) =>
      if !s.chan.rxOpen then s
      else
        var r := Poll(s.rd, s.chan, room);
        s.(rd := r.rd, chan := r.chan,
           taken := s.taken + s.chan.items[..|s.chan.items| - |r.chan.items|],
           delivered := s.delivered + r.out)
    case DropHalf => s.(chan := s.chan.(rxOpen := false))
  }

  function Exec(s: Inbound, es: seq<Event>): Inbound {
    if es == [] then s else Step(Exec(s, es[..|es| - 1]), es[|es| - 1])
  }

  ghost predicate Inv(s: Inbound) {
    && s.rd.Valid()
    && s.accepted == s.taken + s.chan.items
    && s.delivered + s.rd.Rest() == Flatten(s.taken)
    && Subsequence(s.accepted, s.arrived)
  }

  lemma {:induction false} SubsequenceSkip<T>(a: seq<T>, b: seq<T>, x: T)
    requires Subsequence(a, b)
    ensures Subsequence(a, b + [x])
  {
    assert (b + [x])[..|b|] == b;
  }

  lemma {:induction false} SubsequenceKeep<T>(a: seq<T>, b: seq<T>, x: T)
    requires Subsequence(a, b)
    ensures Subsequence(a + [x], b + [x])
  {
    assert (b + [x])[..|b|] == b && (a + [x])[..|a|] == a;
  }

  lemma {:induction false} SubsequenceLength<T>(a: seq<T>, b: seq<T>)
    requires Subsequence(a, b)
    ensures |a| <= |b|
  {
    if a == [] {
    } else {
      if a[|a| - 1] == b[|b| - 1] && Subsequence(a[..|a| - 1], b[..|b| - 1]) {
        SubsequenceLength(a[..|a| - 1], b[..|b| - 1]);
      } else {
        SubsequenceLength(a, b[..|b| - 1]);
      }
    }
  }

  lemma StepKeepsInv(s: Inbound, e: Event)
    requires Inv(s)
    ensures Inv(Step(s, e))
  {
    match e
    case Arrive(c) =>
      if s.chan.txOpen {
        if s.chan.Accepts() {
          SubsequenceKeep(s.accepted, s.arrived, c);
          assert s.accepted + [c] == s.taken + (s.chan.items + [c]);
        } else {
          SubsequenceSkip(s.accepted, s.arrived, c);
        }
      }
    case HangUp =>
    case Read(room) =>
      if s.chan.rxOpen {
        ReadKeepsInv(s, room);
      }
    case DropHalf =>
  }

  /** Where one read takes its bytes from: the carry-over if there is one, else the next chunk if there is one. */
  lemma PollTakes(rd: Reader, chan: Chan<Chunk>, room: nat)
    requires rd.Valid()
    ensures var r := Poll(rd, chan, room);
      && r.rd.Valid()
      && r.chan == (if rd.Rest() != [] then chan else chan.TryRecv())
      && r.out + r.rd.Rest() ==
         (if rd.Rest() != [] then rd.Rest() else if chan.items != [] then chan.items[0] else [])
      && |r.out| == Min(|r.out + r.rd.Rest()|, room)
  {
  }

  lemma CarryOverRead(s: Inbound, r: ReadOutcome)
    requires Inv(s) && r.rd.Valid() && r.out + r.rd.Rest() == s.rd.Rest()
    ensures s.delivered + r.out + r.rd.Rest() == Flatten(s.taken + [])
  {
    Assoc(s.delivered, r.out, r.rd.Rest());
    assert s.taken + [] == s.taken;
  }

  lemma ChunkRead(s: Inbound, r: ReadOutcome, v: Chunk)
    requires Inv(s) && r.rd.Valid() && s.rd.Rest() == [] && r.out + r.rd.Rest() == v
    ensures s.delivered + r.out + r.rd.Rest() == Flatten(s.taken + [v])
  {
    Assoc(s.delivered, r.out, r.rd.Rest());
    FlattenSnoc(s.taken, v);
    assert s.delivered + [] == s.delivered;
  }

  lemma TakenFromQueue(accepted: seq<Chunk>, taken: seq<Chunk>, items: seq<Chunk>, k: nat)
    requires accepted == taken + items && k <= |items|
    ensures accepted == taken + items[..k] + items[k..]
  {
    assert items == items[..k] + items[k..];
    Assoc(taken, items[..k], items[k..]);
  }

  lemma ReadKeepsInv(s: Inbound, room: nat)
    requires Inv(s) && s.chan.rxOpen
    ensures Inv(Step(s, Read(room)))
  {
    var r, items := Poll(s.rd, s.chan, room), s.chan.items;
    var k := |items| - |r.chan.items|;
    PollTakes(s.rd, s.chan, room);
    TakenFromQueue(s.accepted, s.taken, items, k);
    if s.rd.Rest() != [] || items == [] {
      CarryOverRead(s, r);
      assert items[..k] == [];
    } else {
      ChunkRead(s, r, items[0]);
      assert items[..k] == [items[0]];
    }
  }

  lemma {:induction false} RunsKeepInv(cap: nat, es: seq<Event>)
    ensures Inv(Exec(Start(cap), es))
  {
    if es == [] {
    } else {
      RunsKeepInv(cap, es[..|es| - 1]);
      StepKeepsInv(Exec(Start(cap), es[..|es| - 1]), es[|es| - 1]);
    }
  }

  /** For any interleaving of arrivals and reads with any buffer sizes: the delivered bytes, then the carry-over,
      then the queue are exactly the accepted chunks, and these are an in-order subsequence of what arrived. */
  lemma ReadConservation(cap: nat, es: seq<Event>)
    ensures var s := Exec(Start(cap), es);
      && s.rd.Valid()
      && s.delivered + Ahead(s.rd, s.chan) == Flatten(s.accepted)
      && Subsequence(s.accepted, s.arrived)
  {
    RunsKeepInv(cap, es);
    var s := Exec(Start(cap), es);
    FlattenConcat(s.taken, s.chan.items);
    calc {
      s.delivered + (s.rd.Rest() + Flatten(s.chan.items));
      (s.delivered + s.rd.Rest()) + Flatten(s.chan.items);
      Flatten(s.taken) + Flatten(s.chan.items);
    }
  }

  /** In every reachable state a read with room returns zero bytes exactly at an end marker or a closed, drained
      channel, and by then every byte of every chunk accepted before that point has been delivered. */
  lemma EndOfFile(cap: nat, es: seq<Event>, room: nat)
    requires room > 0
    ensures var s := Exec(Start(cap), es);
      var r := Poll(s.rd, s.chan, room);
      var before := |s.accepted| - |s.chan.items|;
      && 0 <= before
      && s.rd.Valid()
      && (r.poll == Ready && r.out == [] <==> AtEnd(s.rd, s.chan))
      && (AtEnd(s.rd, s.chan) ==>
           && s.delivered == Flatten(s.accepted[..before])
           && (if before == |s.accepted| then !s.chan.txOpen else s.accepted[before] == []))
  {
    RunsKeepInv(cap, es);
    var s := Exec(Start(cap), es);
    PollMeaning(s.rd, s.chan, room);
    assert s.accepted[..|s.taken|] == s.taken;
    if AtEnd(s.rd, s.chan) {
      assert s.delivered + s.rd.Rest() == s.delivered;
    }
  }

  /** The i-th event, if it is an arrival, finds a live reader and a free slot. */
  ghost predicate FindsRoom(cap: nat, es: seq<Event>, i: nat)
    requires i < |es|
  {
    var s := Exec(Start(cap), es[..i]);
    es[i].Arrive? && s.chan.txOpen ==> s.chan.rxOpen && |s.chan.items| < cap
  }

  lemma OneStepDropsExactly(s: Inbound, e: Event)
    requires Subsequence(s.accepted, s.arrived)
    ensures var s' := Step(s, e);
      s'.accepted == s'.arrived <==>
      s.accepted == s.arrived && (e.Arrive? && s.chan.txOpen ==> s.chan.Accepts())
  {
    SubsequenceLength(s.accepted, s.arrived);
    var s' := Step(s, e);
    if e.Arrive? && s.chan.txOpen && s.chan.Accepts() {
      assert s'.accepted[..|s.accepted|] == s.accepted && s'.arrived[..|s.arrived|] == s.arrived;
    }
  }

  ghost predicate AllFindRoom(cap: nat, es: seq<Event>) {
    forall i | 0 <= i < |es| :: FindsRoom(cap, es, i)
  }

  lemma AllFindRoomSnoc(cap: nat, es: seq<Event>)
    requires es != []
    ensures AllFindRoom(cap, es) <==> AllFindRoom(cap, es[..|es| - 1]) && FindsRoom(cap, es, |es| - 1)
  {
    var front := es[..|es| - 1];
    forall i | 0 <= i < |front| ensures FindsRoom(cap, es, i) <==> FindsRoom(cap, front, i) {
      assert es[..i] == front[..i];
    }
  }

  /** No chunk that arrived was dropped exactly when every arrival found the reader alive and fewer than `cap`
      chunks outstanding. */
  lemma {:induction false} NothingDroppedExactly(cap: nat, es: seq<Event>)
    ensures Exec(Start(cap), es).chan.cap == cap
    ensures Exec(Start(cap), es).accepted == Exec(Start(cap), es).arrived <==> AllFindRoom(cap, es)
  {
    if es == [] {
    } else {
      var front := es[..|es| - 1];
      NothingDroppedExactly(cap, front);
      RunsKeepInv(cap, front);
      OneStepDropsExactly(Exec(Start(cap), front), es[|es| - 1]);
      AllFindRoomSnoc(cap, es);
    }
  }

  lemma EndsStep(s: Inbound, e: Event)
    ensures Step(s, e).chan.txOpen <==> s.chan.txOpen && e != HangUp
    ensures Step(s, e).chan.rxOpen <==> s.chan.rxOpen && e != DropHalf
  {
  }

  /** The channel's ends are open exactly until they are dropped; from then on a hung-up channel only runs dry and an
      abandoned one takes nothing. */
  lemma {:induction false} EndsAreHistory(cap: nat, es: seq<Event>)
    ensures Exec(Start(cap), es).chan.txOpen <==> HangUp !in es
    ensures Exec(Start(cap), es).chan.rxOpen <==> DropHalf !in es
  {
    if es == [] {
    } else {
      var n := |es| - 1;
      EndsAreHistory(cap, es[..n]);
      EndsStep(Exec(Start(cap), es[..n]), es[n]);
      assert es == es[..n] + [es[n]];
    }
  }
}
