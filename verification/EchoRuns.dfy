/** Runs of the whole path in which the client reads back everything it wrote, and the echo handler then finishes at the
    client's FIN: for queues of any capacity and any list of writes. */
module EchoRuns {
  import opened Chunks
  import opened Channels
  import opened RecvHalf
  import opened SendHalf
  import opened EchoPath
  import opened EchoLoop
  import Relay
  import CB = ClientBridge
  import CP = ClientProtocol
  import EP = EchoPath
  import SL = ServerLink

  /** Some run leads from `s` to `w`. */
  ghost predicate Reaches(s: World, w: World) {
    exists es: seq<EP.Event> :: EP.Exec(s, es) == w
  }

  lemma ReachesNext(s: World, w: World, e: EP.Event)
    requires Reaches(s, w)
    ensures Reaches(s, EP.Step(w, e))
  {
    var es: seq<EP.Event> :| EP.Exec(s, es) == w;
    assert (es + [e])[..|es|] == es;
    assert EP.Exec(s, es + [e]) == EP.Step(w, e);
  }

  /** A step of the client's own. */
  lemma ClientStep(s: World, w: World, e: CP.Event) returns (w': World)
    requires Reaches(s, w) && Own(e)
    ensures Reaches(s, w') && w' == w.(c := CP.Step(w.c, e))
  {
    ReachesNext(s, w, Client(e));
    w' := EP.Step(w, Client(e));
  }

  /** A step of the server's loop. */
  lemma LoopStep(s: World, w: World, refused: bool) returns (w': World)
    requires Reaches(s, w) && w.srv.Some?
    ensures Reaches(s, w') && w' == w.(srv := Some(w.srv.value.(link := SL.LoopStep(w.srv.value.link, refused))))
  {
    ReachesNext(s, w, ServerLoop(SL.LoopActs(refused)));
    w' := EP.Step(w, ServerLoop(SL.LoopActs(refused)));
  }

  // ----- Rest -----

  function Empty<T>(cap: nat): Chan<T> {
    Chan(cap, [], true, true)
  }

  /** The client's bridge is open with nothing on its way, and its writer idle. */
  ghost predicate ClientRests(c: CP.Client, caps: Caps) {
    && c.b.pc.Idle? && c.b.Open() && !c.b.cl.shouldClose && c.b.peek.None?
    && c.b.q == Empty(caps.send) && c.b.recv == Empty(caps.recv)
    && c.b.AddsInOrder() && [] !in c.b.log.added
    && c.sd.pc.Out? && c.sd.pending.None? && !c.sd.misused
  }

  ghost predicate ServerRests(s: Server, caps: Caps) {
    && s.link.pc.Resting? && !s.link.removed && s.link.lost == [] && [] !in s.link.added
    && s.link.recv == Empty(caps.recv) && s.link.q == Empty(caps.send)
    && s.link.sd.pc.Out? && s.link.sd.pending.None?
    && s.rd == Reader([], 0) && s.echo == Reading
  }

  /** Everything sent has arrived, on either side, and been read; no harm was done. */
  ghost predicate Rests(w: World) {
    && 0 < w.caps.recv && 0 < w.caps.send && 0 < w.caps.wake
    && ClientRests(w.c, w.caps) && ServerRests(Fresh(w), w.caps) && w.crd == Reader([], 0)
    && w.toServer == |w.Up()| && w.toClient == |w.Down()| && !w.dropped && !w.finBytes
  }

  lemma RestIsClean(w: World)
    requires Rests(w)
    ensures w.Clean()
  {
  }

  lemma Connected(caps: Caps) returns (w: World)
    requires 0 < caps.recv && 0 < caps.send && 0 < caps.wake
    ensures Reaches(EP.Start(caps), w) && Rests(w)
    ensures w.caps == caps && w.c.sd.acked == [] && w.cread == []
  {
    var s := EP.Start(caps);
    assert EP.Exec(s, []) == s;
    w := ClientStep(s, s, CP.Stream(CB.Ready(0, true)));
  }

  // ----- The client writes, and its loop sends -----

  lemma ClientWrites(s: World, w: World, buf: Chunk) returns (w': World)
    requires Reaches(s, w) && Rests(w)
    ensures Reaches(s, w')
    ensures w' == w.(c := CP.Client(w.c.b.(q := w.c.b.q.(items := [buf])), w'.c.sd))
    ensures w'.c.sd == w.c.sd.(result := SendHalf.Ready(|buf|), buf := buf, enqueued := w.c.sd.enqueued + [buf],
                               acked := w.c.sd.acked + [buf])
  {
    var w1 := ClientStep(s, w, CP.Write(buf));
    w' := ClientStep(s, w1, CP.WriterActs);
    assert Acknowledged(buf, |buf|) == buf && [] + [buf] == [buf];
  }

  lemma ClientShutsDown(s: World, w: World) returns (w': World)
    requires Reaches(s, w) && Rests(w)
    ensures Reaches(s, w')
    ensures w' == w.(c := CP.Client(w.c.b.(q := w.c.b.q.(items := [[]])), w'.c.sd))
    ensures w'.c.sd == w.c.sd.(enqueued := w.c.sd.enqueued + [[]], acked := w.c.sd.acked + [[]])
  {
    w' := ClientStep(s, w, CP.ShutDown);
    var none: seq<Chunk> := [];
    assert none + [[]] == [[]];
  }

  /** One time check and one callback after a send put what is queued on the stream. */
  lemma ClientSends(s: World, w: World, x: Chunk) returns (w': World)
    requires Reaches(s, w) && w.c.b.pc.Idle? && w.c.b.Open() && !w.c.b.cl.shouldClose && w.c.b.recv.rxOpen
    requires w.c.b.peek.None? && w.c.b.q.items == [x] && w.c.b.q.txOpen
    ensures Reaches(s, w')
    ensures w' == w.(c := w.c.(b := w.c.b.(
      q := w.c.b.q.(items := []), wake := w'.c.b.wake, log := w.c.b.log.Accept(x))))
  {
    var w1 := ClientStep(s, w, CP.LoopEnters(5));
    var w2 := ClientStep(s, w1, CP.LoopActs(false));
    assert w2.c.b == w.c.b.(q := w.c.b.q.(items := []), peek := Some(x));
    var w3 := ClientStep(s, w2, CP.LoopEnters(3));
    w' := DrainsOne(s, w3, x);
  }

  lemma DrainsOne(s: World, w: World, x: Chunk) returns (w': World)
    requires Reaches(s, w) && w.c.b.pc == CB.AddPeeked(x) && w.c.b.q.items == [] && w.c.b.q.txOpen
    ensures Reaches(s, w')
    ensures w' == w.(c := w.c.(b := w.c.b.(pc := CB.Idle, wake := w'.c.b.wake, log := w.c.b.log.Accept(x))))
  {
    var w1 := ClientStep(s, w, CP.LoopActs(false));
    assert w1.c.b.pc == CB.FirstWake;
    var w2 := ClientStep(s, w1, CP.LoopActs(false));
    assert w2.c.b.pc == CB.Drain;
    var w3 := ClientStep(s, w2, CP.LoopActs(false));
    assert w3.c.b.pc == CB.LastWake;
    w' := ClientStep(s, w3, CP.LoopActs(false));
  }

  // ----- The server echoes -----

  /** What the last chunk added puts on the stream. */
  lemma LastChunk(before: seq<Chunk>, buf: Chunk, added: seq<Chunk>)
    requires added == before + [buf] && [] !in before && buf != []
    ensures var n := |Flatten(before)|;
      && FinalSize(added) == |Flatten(added)| == n + |buf|
      && Flatten(added)[n..n + |buf|] == buf
  {
    FlattenSnoc(before, buf);
  }

  /** The server's callback gets the bytes added last. */
  lemma ServerGets(s: World, w: World, buf: Chunk, before: seq<Chunk>) returns (w': World)
    requires Reaches(s, w) && ServerRests(Fresh(w), w.caps) && 0 < w.caps.recv
    requires w.c.b.log.added == before + [buf] && [] !in before && buf != [] && w.toServer == |Flatten(before)|
    ensures Reaches(s, w')
    ensures w' == w.(srv := Some(Fresh(w).(link := Fresh(w).link.(recv := Fresh(w).link.recv.(items := [buf])))),
                     toServer := w.toServer + |buf|)
  {
    LastChunk(before, buf, w.c.b.log.added);
    assert [] + [buf] == [buf];
    ReachesNext(s, w, ServerData(|buf|));
    w' := EP.Step(w, ServerData(|buf|));
  }

  lemma HandlerActsOnce(s: World, w: World) returns (w': World)
    requires Reaches(s, w) && w.srv.Some?
    ensures Reaches(s, w') && w' == w.(srv := Some(EchoStep(w.srv.value)))
  {
    ReachesNext(s, w, EchoActs);
    w' := EP.Step(w, EchoActs);
  }

  lemma HandlerReads(h: Server, buf: Chunk)
    requires h.echo == Reading && h.rd == Reader([], 0) && h.link.recv.rxOpen && h.link.recv.items == [buf]
    requires 1 <= |buf| <= 8192
    ensures EchoStep(h) == Server(h.link.(recv := h.link.recv.(items := [])), h.rd, Writing(buf), h.taken + buf)
  {
    assert buf[0..|buf|] == buf;
  }

  lemma HandlerWrites(h: Server, buf: Chunk)
    requires h.echo == Writing(buf) && buf != [] && h.link.sd.pc.Out? && h.link.sd.pending.None?
    requires h.link.q.txOpen && h.link.q.rxOpen && h.link.q.items == [] && 0 < h.link.q.cap
    ensures var h' := EchoStep(EchoStep(h));
      && h' == Server(h.link.(q := h.link.q.(items := [buf]), sd := h'.link.sd), h.rd, Reading, h.taken)
      && h'.link.sd.pc.Out? && h'.link.sd.pending.None?
  {
    var h1 := EchoStep(h);
    assert h1.echo == Polling(buf) && h1.link.sd.pc == Trying(Held(buf, |buf|));
    assert [] + [buf] == [buf];
  }

  /** The handler reads the bytes and writes them back. */
  lemma HandlerEchoes(s: World, w: World, buf: Chunk, h: Server) returns (w': World)
    requires Reaches(s, w) && ServerRests(h, w.caps) && 1 <= |buf| <= 8192 && 0 < w.caps.send
    requires w.srv == Some(h.(link := h.link.(recv := h.link.recv.(items := [buf]))))
    ensures Reaches(s, w') && w'.srv.Some? && w' == w.(srv := w'.srv)
    ensures var h' := w'.srv.value;
      && h'.link == h.link.(q := h.link.q.(items := [buf]), sd := h'.link.sd)
      && h'.rd == h.rd && h'.echo == Reading && h'.link.sd.pc.Out? && h'.link.sd.pending.None?
  {
    HandlerReads(w.srv.value, buf);
    var w1 := HandlerActsOnce(s, w);
    HandlerWrites(w1.srv.value, buf);
    var w2 := HandlerActsOnce(s, w1);
    w' := HandlerActsOnce(s, w2);
  }

  /** One AFTER_* puts them on the stream back. */
  lemma ServerSends(s: World, w: World, buf: Chunk) returns (w': World)
    requires Reaches(s, w) && w.srv.Some?
    requires w.srv.value.link.pc.Resting? && !w.srv.value.link.removed && w.srv.value.link.q.items == [buf]
    ensures Reaches(s, w') && w'.srv.Some?
    ensures var l, l' := w.srv.value.link, w'.srv.value.link;
      && w' == w.(srv := Some(w.srv.value.(link := l')))
      && l' == l.(q := l.q.(items := []), wake := l'.wake, added := l.added + [buf])
  {
    ReachesNext(s, w, ServerLoop(SL.LoopEnters));
    var w1 := EP.Step(w, ServerLoop(SL.LoopEnters));
    var w2 := LoopStep(s, w1, false);
    assert w2.srv.value.link.pc == SL.Adding(buf);
    var w3 := LoopStep(s, w2, false);
    assert w3.srv.value.link.pc == SL.Waking;
    var w4 := LoopStep(s, w3, false);
    w' := LoopStep(s, w4, false);
  }

  // ----- The client reads -----

  lemma CallbackOffers(c: CP.Client, buf: Chunk)
    requires c.b.pc.Idle? && c.b.recv.items == [] && c.b.recv.Accepts() && buf != []
    ensures CP.Step(c, CP.Stream(CB.StreamData(buf))) == c.(b := c.b.(recv := c.b.recv.(items := [buf])))
  {
    assert [] + [buf] == [buf];
  }

  lemma DataStep(w: World, buf: Chunk)
    requires w.c.b.pc.Idle? && w.c.b.recv.items == [] && w.c.b.recv.Accepts() && buf != []
    requires w.toClient + |buf| <= FinalSize(w.DownChunks()) && w.Down()[w.toClient..w.toClient + |buf|] == buf
    ensures EP.Step(w, ClientData(|buf|)) ==
      w.(c := w.c.(b := w.c.b.(recv := w.c.b.recv.(items := [buf]))), toClient := w.toClient + |buf|)
  {
    CallbackOffers(w.c, buf);
  }

  lemma ClientIsGiven(s: World, w: World, buf: Chunk, before: seq<Chunk>) returns (w': World)
    requires Reaches(s, w) && w.c.b.pc.Idle? && w.c.b.recv == Empty(w.caps.recv) && 0 < w.caps.recv
    requires w.DownChunks() == before + [buf] && [] !in before && buf != [] && w.toClient == |Flatten(before)|
    ensures Reaches(s, w')
    ensures w' == w.(c := w.c.(b := w.c.b.(recv := w.c.b.recv.(items := [buf]))), toClient := w.toClient + |buf|)
  {
    LastChunk(before, buf, w.DownChunks());
    DataStep(w, buf);
    ReachesNext(s, w, ClientData(|buf|));
    w' := EP.Step(w, ClientData(|buf|));
  }

  lemma ReaderTakesAll(rd: Reader, recv: Chan<Chunk>, buf: Chunk)
    requires rd == Reader([], 0) && recv.items == [buf] && buf != []
    ensures Poll(rd, recv, |buf|) == ReadOutcome(rd, recv.(items := []), RecvHalf.Ready, buf)
  {
    assert buf[0..|buf|] == buf;
  }

  lemma ClientReadsAll(s: World, w: World, buf: Chunk) returns (w': World)
    requires Reaches(s, w) && w.c.b.recv.rxOpen && w.c.b.recv.items == [buf] && buf != [] && w.crd == Reader([], 0)
    ensures Reaches(s, w')
    ensures w' == w.(c := w.c.(b := w.c.b.(recv := w.c.b.recv.(items := []))), cread := w.cread + buf)
  {
    ReaderTakesAll(w.crd, w.c.b.recv, buf);
    ReachesNext(s, w, ClientReads(|buf|));
    w' := EP.Step(w, ClientReads(|buf|));
  }

  lemma ClientGets(s: World, w: World, buf: Chunk, before: seq<Chunk>) returns (w': World)
    requires Reaches(s, w) && w.c.b.pc.Idle? && w.c.b.recv == Empty(w.caps.recv) && 0 < w.caps.recv
    requires w.DownChunks() == before + [buf] && [] !in before && buf != [] && w.toClient == |Flatten(before)|
    requires w.crd == Reader([], 0)
    ensures Reaches(s, w')
    ensures w' == w.(cread := w.cread + buf, toClient := w.toClient + |buf|)
  {
    var w1 := ClientIsGiven(s, w, buf, before);
    w' := ClientReadsAll(s, w1, buf);
  }

  // ----- Round trips -----

  /** From rest one write makes the round trip, and everything rests again. */
  lemma RoundTrip(s: World, w: World, buf: Chunk) returns (w': World)
    requires Reaches(s, w) && Rests(w) && 1 <= |buf| <= 8192
    ensures Reaches(s, w') && Rests(w') && w'.caps == w.caps && w'.srv.Some?
    ensures w'.c.sd.acked == w.c.sd.acked + [buf] && w'.cread == w.cread + buf
  {
    var up, down := w.c.b.log.added, w.DownChunks();
    var w1 := ClientWrites(s, w, buf);
    var w2 := ClientSends(s, w1, buf);
    var w3 := ServerGets(s, w2, buf, up);
    var w4 := HandlerEchoes(s, w3, buf, Fresh(w));
    var w5 := ServerSends(s, w4, buf);
    w' := ClientGets(s, w5, buf, down);
    FlattenSnoc(up, buf);
    FlattenSnoc(down, buf);
  }

  /** For queues of any capacity and any list of non-empty writes that fit the handler's buffer there is a run from the
      start, without any harm done, in which the client reads back exactly what it wrote. */
  lemma {:induction false} EchoHappens(caps: Caps, bufs: seq<Chunk>) returns (w: World)
    requires 0 < caps.recv && 0 < caps.send && 0 < caps.wake
    requires forall b | b in bufs :: 1 <= |b| <= 8192
    ensures Reaches(EP.Start(caps), w) && Rests(w) && w.Clean()
    ensures w.caps == caps && w.c.sd.acked == bufs && w.cread == Flatten(bufs) && (bufs != [] ==> w.srv.Some?)
  {
    if bufs == [] {
      w := Connected(caps);
    } else {
      var front, last := bufs[..|bufs| - 1], bufs[|bufs| - 1];
      assert bufs == front + [last];
      var w1 := EchoHappens(caps, front);
      w := RoundTrip(EP.Start(caps), w1, last);
      FlattenSnoc(front, last);
    }
    RestIsClean(w);
  }

  // ----- The end -----

  lemma FinIsGiven(s: World, w: World, before: seq<Chunk>) returns (w': World)
    requires Reaches(s, w) && w.srv.Some? && ServerRests(w.srv.value, w.caps) && 0 < w.caps.recv
    requires w.c.b.log.added == before + [[]] && [] !in before && w.toServer == |Flatten(before)|
    ensures Reaches(s, w')
    ensures var h := w.srv.value;
      w' == w.(srv := Some(h.(link := h.link.(recv := h.link.recv.(items := [[]])))))
  {
    BeforeClean(before, [[]]);
    assert Relay.Before([[]]) == [] && Flatten(before) + [] == Flatten(before);
    var none: seq<Chunk> := [];
    assert none + [[]] == [[]];
    assert FinArrives(w, 0);
    ReachesNext(s, w, ServerFin(0));
    w' := EP.Step(w, ServerFin(0));
  }

  lemma HandlerFinishes(h: Server)
    requires h.echo == Reading && h.rd == Reader([], 0) && h.link.recv.rxOpen && h.link.recv.items == [[]]
    ensures Finished(EchoStep(h)) && EchoStep(h).link.lost == h.link.lost
  {
  }

  /** The FIN behind everything delivered reaches the handler, which finishes. */
  lemma FinFinishes(s: World, w: World, before: seq<Chunk>) returns (w': World)
    requires Reaches(s, w) && w.srv.Some? && ServerRests(w.srv.value, w.caps) && 0 < w.caps.recv
    requires w.c.b.log.added == before + [[]] && [] !in before && w.toServer == |Flatten(before)|
    ensures Reaches(s, w') && w'.srv.Some? && Finished(w'.srv.value) && w' == w.(srv := w'.srv)
    ensures w'.srv.value.link.lost == []
  {
    var w1 := FinIsGiven(s, w, before);
    HandlerFinishes(w1.srv.value);
    w' := HandlerActsOnce(s, w1);
  }

  /** ... and after any such writes a shutdown is one more run: the handler finishes at the client's FIN with everything
      read back. */
  lemma EchoEnds(caps: Caps, bufs: seq<Chunk>) returns (w: World)
    requires 0 < caps.recv && 0 < caps.send && 0 < caps.wake
    requires bufs != [] && forall b | b in bufs :: 1 <= |b| <= 8192
    ensures Reaches(EP.Start(caps), w) && w.Clean() && Finished(Fresh(w))
    ensures w.c.sd.acked == bufs + [[]] && w.cread == Flatten(bufs)
  {
    var s := EP.Start(caps);
    var w1 := EchoHappens(caps, bufs);
    var w2 := ClientShutsDown(s, w1);
    var w3 := ClientSends(s, w2, []);
    w := FinFinishes(s, w3, w1.c.b.log.added);
  }
}
