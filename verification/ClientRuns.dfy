/** Runs of the client from its start in which the bridge loses, reorders or misreports bytes. */
module ClientRuns {
  import opened Chunks
  import opened PacketLoop
  import opened SendHalf
  import opened ClientBridge
  import opened ClientProtocol
  import opened ClientHistory
  import opened ClientTheorems

  /** Some run leads from `s` to `c`. */
  ghost predicate Reaches(s: Client, c: Client) {
    exists es: seq<Event> :: Exec(s, es) == c
  }

  lemma ReachesItself(s: Client)
    ensures Reaches(s, s)
  {
    assert Exec(s, []) == s;
  }

  lemma ReachesNext(s: Client, c: Client, e: Event)
    requires Reaches(s, c)
    ensures Reaches(s, Step(c, e))
  {
    var es: seq<Event> :| Exec(s, es) == c;
    assert (es + [e])[..|es|] == es;
    assert Exec(s, es + [e]) == Step(c, e);
  }

  lemma {:induction false} ReachesRun(s: Client, c: Client, es: seq<Event>)
    requires Reaches(s, c)
    ensures Reaches(s, Exec(c, es))
  {
    if es == [] {
    } else {
      ReachesRun(s, c, es[..|es| - 1]);
      ReachesNext(s, Exec(c, es[..|es| - 1]), es[|es| - 1]);
    }
  }

  lemma ReachedIsGood(recvCap: nat, sendCap: nat, wakeCap: nat, c: Client)
    requires 0 < wakeCap && Reaches(Start(recvCap, sendCap, wakeCap), c)
    ensures Inv(c)
  {
    var s := Start(recvCap, sendCap, wakeCap);
    var es: seq<Event> :| Exec(s, es) == c;
    StartIsGood(recvCap, sendCap, wakeCap);
    RunsKeepInv(s, es);
  }

  // ----- Building blocks -----

  /** The connection is up, with stream 0. */
  lemma Connected(s: Client) returns (c: Client)
    requires s.b.pc.Idle?
    ensures Reaches(s, c) && c == s.(b := s.b.(cl := s.b.cl.(cnx := true, sid := Some(0))))
  {
    ReachesItself(s);
    ReachesNext(s, s, Stream(ClientBridge.Ready(0, true)));
    c := Step(s, Stream(ClientBridge.Ready(0, true)));
  }

  /** A write that finds room. */
  lemma Written(s: Client, c: Client, buf: Chunk) returns (c': Client)
    requires Reaches(s, c) && c.sd.pc.Out? && c.sd.pending.None? && c.b.q.txOpen && c.b.q.Accepts()
    ensures Reaches(s, c')
    ensures c' == Client(c.b.(q := c.b.q.(items := c.b.q.items + [buf])),
                         c.sd.(result := SendHalf.Ready(|buf|), buf := buf, enqueued := c.sd.enqueued + [buf],
                               acked := c.sd.acked + [buf]))
  {
    var c1 := Step(c, Write(buf));
    ReachesNext(s, c, Write(buf));
    ReachesNext(s, c1, WriterActs);
    c' := Step(c1, WriterActs);
    assert Acknowledged(buf, |buf|) == buf;
  }

  /** TIME_CHECK moves the oldest queued chunk into the empty slot. */
  lemma Peeked(s: Client, c: Client) returns (c': Client)
    requires Reaches(s, c) && c.b.pc.Idle? && c.b.Open() && c.b.recv.rxOpen && c.b.peek.None? && c.b.q.items != []
    ensures Reaches(s, c')
    ensures c' == c.(b := c.b.(q := c.b.q.TryRecv(), peek := Some(c.b.q.items[0])))
  {
    var c1 := Step(c, LoopEnters(PACKET_LOOP_TIME_CHECK));
    ReachesNext(s, c, LoopEnters(PACKET_LOOP_TIME_CHECK));
    ReachesNext(s, c1, LoopActs(false));
    c' := Step(c1, LoopActs(false));
  }

  // ----- A younger chunk overtakes -----

  /** A refused peeked chunk is put back while the drain goes on: the next chunk overtakes it. */
  lemma RefusedAddReorders() returns (c: Client)
    ensures Reaches(Start(4096, 512, 512), c)
    ensures c.sd.acked == c.sd.enqueued == [[1], [2]] && c.b.log.added == [[2]] && c.b.peek == Some([1])
  {
    var s := Start(4096, 512, 512);
    var c1 := Connected(s);
    var c2 := Written(s, c1, [1]);
    var c3 := Written(s, c2, [2]);
    var c4 := Peeked(s, c3);
    assert c4.sd.enqueued == [[1], [2]] && c4.b.q.items == [[2]];
    var refuses := (k: nat) => k == 0;
    var es := CallbackIsARun(c4, PACKET_LOOP_AFTER_SEND, refuses);
    c := Exec(c4, es);
    ReachesRun(s, c4, es);
    PutBackOvertakes(c4.b, refuses);
  }

  /** In general the whole queue goes before a chunk that was put back. */
  lemma PutBackOvertakes(b: Bridge, refuses: nat -> bool)
    requires b.pc.Idle? && b.Open() && !b.cl.shouldClose && b.peek.Some? && b.peek.value != []
    requires refuses(b.log.calls) && NoneRefused(refuses, b.log.calls + 1, |b.q.items|)
    ensures var d := RunToIdle(StartAfter(b), refuses);
      d.log.added == b.log.added + b.q.items && d.peek == b.peek && d.q.items == []
  {
    var b' := AfterSlot(b, refuses);
    DrainTakesAll(b', refuses);
  }

  // ----- An acknowledged chunk is discarded -----

  /** A chunk that was acknowledged and is still queued when the application drops its stream is lost. */
  lemma AcknowledgedChunkCanBeDiscarded() returns (c: Client)
    ensures Reaches(Start(4096, 512, 512), c)
    ensures c.b.Open() && !c.sd.misused && c.sd.acked == [[1]] && c.b.log.lost == []
    ensures forall more: seq<Event> :: Exec(c, more).b.log.added == []
  {
    var s := Start(4096, 512, 512);
    var c1 := Connected(s);
    var c2 := Written(s, c1, [1]);
    var c3 := Step(c2, DropRecvHalf);
    ReachesNext(s, c2, DropRecvHalf);
    c := Step(c3, LoopEnters(PACKET_LOOP_TIME_CHECK));
    ReachesNext(s, c3, LoopEnters(PACKET_LOOP_TIME_CHECK));
    ReachedIsGood(4096, 512, 512, c);
    forall more: seq<Event> ensures Exec(c, more).b.log.added == [] {
      ClosingIsFinal(c, more);
    }
  }

  // ----- An abandoned write -----

  /** `n` writes fill the queue that far. */
  lemma {:induction false} Filled(s: Client, c: Client, n: nat) returns (c': Client)
    requires Reaches(s, c) && c.sd.pc.Out? && c.sd.pending.None? && !c.sd.misused
    requires c.b.q.txOpen && c.b.q.rxOpen && |c.b.q.items| + n <= c.b.q.cap
    ensures Reaches(s, c') && c'.sd.pc.Out? && c'.sd.pending.None? && !c'.sd.misused
    ensures c'.b == c.b.(q := c.b.q.(items := c'.b.q.items)) && |c'.b.q.items| == |c.b.q.items| + n
    ensures |c'.sd.enqueued| == |c.sd.enqueued| + n && ([] in c'.sd.enqueued ==> [] in c.sd.enqueued)
  {
    if n == 0 {
      c' := c;
    } else {
      c' := Filled(s, c, n - 1);
      c' := Written(s, c', [0]);
    }
  }

  /** A write of two bytes that finds the queue full, and no token. */
  lemma LeftPending(s: Client, c: Client) returns (c': Client)
    requires Reaches(s, c) && c.sd.pc.Out? && c.sd.pending.None? && !c.sd.misused && c.b.q.txOpen
    requires c.b.q.SendResult().Full? && c.b.wake.RecvResult().Empty?
    ensures Reaches(s, c') && c'.b == c.b && !c'.sd.misused
    ensures c'.sd.pc.Out? && c'.sd.result.Pending? && c'.sd.pending == Some(Held([1, 2], 2))
  {
    var c1 := Step(c, Write([1, 2]));
    var c2 := Step(c1, WriterActs);
    c' := Step(c2, WriterActs);
    ReachesNext(s, c, Write([1, 2]));
    ReachesNext(s, c1, WriterActs);
    ReachesNext(s, c2, WriterActs);
  }

  /** A caller that gives up on a pending write of two bytes and then writes another byte is told that two bytes are
      written, and it is the two abandoned ones that were enqueued. It happens with queues of any capacity. */
  lemma AbandonedWriteIsMisreported(recvCap: nat, sendCap: nat, wakeCap: nat) returns (before: Client, c: Client)
    requires 0 < sendCap && 0 < wakeCap
    ensures Reaches(Start(recvCap, sendCap, wakeCap), before) && Reaches(before, c)
    ensures !before.sd.misused && before.sd.result.Pending?
    ensures c.sd.buf == [3] && c.sd.result == SendHalf.Ready(2) && c.sd.enqueued == before.sd.enqueued + [[1, 2]]
  {
    var s := Start(recvCap, sendCap, wakeCap);
    var c1 := Connected(s);
    var c2 := Filled(s, c1, sendCap);
    var c3 := LeftPending(s, c2);
    before := Peeked(s, c3);
    var c4 := Step(before, Write([3]));
    c := Step(c4, WriterActs);
    ReachesItself(before);
    ReachesNext(before, before, Write([3]));
    ReachesNext(before, c4, WriterActs);
  }

  // ----- A full receive channel -----

  const DATA := Stream(StreamData([1]))

  function DataTimes(n: nat): (es: seq<Event>)
    ensures |es| == n
  {
    if n == 0 then [] else DataTimes(n - 1) + [DATA]
  }

  ghost predicate Listens(c: Client, recvCap: nat, queued: nat) {
    c.b.pc.Idle? && c.b.recv.rxOpen && c.b.recv.cap == recvCap && |c.b.recv.items| == queued
  }

  lemma DataArrives(c: Client, recvCap: nat, queued: nat)
    requires Listens(c, recvCap, queued)
    ensures Listens(Step(c, DATA), recvCap, if queued < recvCap then queued + 1 else queued)
    ensures OfferedNow(c, DATA) == Some([1]) && (c.b.recv.Accepts() <==> queued < recvCap)
  {
  }

  lemma OneMore(s: Client, n: nat)
    requires n > 0
    ensures var es, c := DataTimes(n), Exec(s, DataTimes(n - 1));
      var x := Opt(OfferedNow(c, DATA));
      && Exec(s, es) == Step(c, DATA)
      && Offers(s, es, false) == Offers(s, DataTimes(n - 1), false) + x
      && Offers(s, es, true) == Offers(s, DataTimes(n - 1), true) + if x == [] || c.b.recv.Accepts() then x else []
  {
    var es := DataTimes(n);
    assert es[..n - 1] == DataTimes(n - 1) && es[n - 1] == DATA;
    OffersSnoc(s, es, n - 1);
  }

  /** After `n` data callbacks and no reads the channel took as many as it has room for. */
  ghost predicate FilledBy(s: Client, recvCap: nat, n: nat) {
    && Listens(Exec(s, DataTimes(n)), recvCap, Min(n, recvCap))
    && |Offers(s, DataTimes(n), true)| == Min(n, recvCap) && |Offers(s, DataTimes(n), false)| == n
  }

  lemma FillsOneMore(s: Client, recvCap: nat, n: nat, c: Client)
    requires n > 0 && FilledBy(s, recvCap, n - 1) && c == Exec(s, DataTimes(n - 1))
    ensures FilledBy(s, recvCap, n)
  {
    DataArrives(c, recvCap, Min(n - 1, recvCap));
    OneMore(s, n);
  }

  lemma {:induction false} DataFills(s: Client, recvCap: nat, n: nat)
    requires Listens(s, recvCap, 0)
    ensures FilledBy(s, recvCap, n)
  {
    if n == 0 {
    } else {
      DataFills(s, recvCap, n - 1);
      FillsOneMore(s, recvCap, n, Exec(s, DataTimes(n - 1)));
    }
  }

  /** One data callback more than the receive channel has room for, and its chunk is gone. */
  lemma FullReceiveChannelDrops(recvCap: nat, sendCap: nat, wakeCap: nat)
    ensures var s, es := Start(recvCap, sendCap, wakeCap), DataTimes(recvCap + 1);
      |Offers(s, es, true)| == recvCap && |Offers(s, es, false)| == recvCap + 1
  {
    DataFills(Start(recvCap, sendCap, wakeCap), recvCap, recvCap + 1);
  }

  // ----- A dropped end marker -----

  /** A shutdown, which always reports success, puts an end marker in the queue exactly when the loop still receives
      and the queue has room. */
  lemma ShutdownMarksExactly(c: Client)
    requires c.sd.pc.Out? && c.b.q.txOpen
    ensures Step(c, ShutDown).sd.enqueued == c.sd.enqueued + [[]] <==> c.b.q.rxOpen && |c.b.q.items| < c.b.q.cap
    ensures !(c.b.q.rxOpen && |c.b.q.items| < c.b.q.cap) ==> Step(c, ShutDown) == c
  {
    assert c.sd.enqueued + [[]] != c.sd.enqueued by {
      assert |c.sd.enqueued + [[]]| == |c.sd.enqueued| + 1;
    }
  }

  /** With queues of any capacity a run from the start fills the queue, and a shutdown then changes nothing: no end
      marker is on its way. */
  lemma FullQueueDropsShutdown(recvCap: nat, sendCap: nat, wakeCap: nat) returns (c: Client)
    ensures Reaches(Start(recvCap, sendCap, wakeCap), c)
    ensures c.b.Open() && c.StreamHeld() && c.sd.pc.Out? && |c.sd.enqueued| == sendCap
    ensures Step(c, ShutDown) == c && [] !in c.sd.enqueued
  {
    var s := Start(recvCap, sendCap, wakeCap);
    var c1 := Connected(s);
    c := Filled(s, c1, sendCap);
  }

  // ----- An empty write -----

  /** A write that finds room has the effect of a shutdown exactly when what it enqueues is empty. */
  lemma EmptyWriteIsShutdownExactly(c: Client, buf: Chunk)
    requires c.sd.pc.Out? && c.b.q.txOpen && c.b.q.Accepts()
    ensures Step(Step(c, Write(buf)), WriterActs).b == Step(c, ShutDown).b <==> Subject(c.sd, buf).data == []
  {
    var b, b' := Step(Step(c, Write(buf)), WriterActs).b, Step(c, ShutDown).b;
    assert b.q.items == c.b.q.items + [Subject(c.sd, buf).data] && b'.q.items == c.b.q.items + [[]];
    assert b.q.items[|c.b.q.items|] == Subject(c.sd, buf).data && b'.q.items[|c.b.q.items|] == [];
  }

  /** A run from the start in which an empty write ends the stream: the byte written after it follows the FIN. */
  lemma EmptyWriteEndsStream() returns (c: Client)
    ensures Reaches(Start(4096, 512, 512), c)
    ensures !c.sd.misused && c.sd.result == SendHalf.Ready(1) && c.b.log.added == [[], [1]]
  {
    var s := Start(4096, 512, 512);
    var c1 := Connected(s);
    var c2 := Written(s, c1, []);
    var c3 := Written(s, c2, [1]);
    var c4 := Peeked(s, c3);
    assert c4.b.peek == Some([]) && c4.b.q.items == [[1]];
    var refuses := (k: nat) => false;
    var es := CallbackIsARun(c4, PACKET_LOOP_AFTER_SEND, refuses);
    c := Exec(c4, es);
    ReachesRun(s, c4, es);
    DrainFromSlot(c4.b, refuses);
    assert c.b.log.added == [] + [[]] + [[1]];
  }

  // ----- A stream abandoned before it is connected -----

  /** A run from the start in which both halves are dropped before there is a connection: one time check and one
      callback after a send end the loop. */
  lemma AbandonedConnectTerminates() returns (c: Client)
    ensures Reaches(Start(4096, 512, 512), c) && c.b.pc == Terminated && c.b.cl.closes == 0
  {
    var s := Start(4096, 512, 512);
    ReachesItself(s);
    var c1 := Step(s, DropRecvHalf);
    var c2 := Step(c1, DropSendHalf);
    ReachesNext(s, s, DropRecvHalf);
    ReachesNext(s, c1, DropSendHalf);
    var c3 := Step(c2, LoopEnters(5));
    var c4 := Step(c3, LoopActs(false));
    ReachesNext(s, c2, LoopEnters(5));
    ReachesNext(s, c3, LoopActs(false));
    c := Step(c4, LoopEnters(3));
    ReachesNext(s, c4, LoopEnters(3));
  }
}
