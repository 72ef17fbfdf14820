/** What the echo handler is bound to do, beyond being safe: it reads what is there, writes all of what it read when
    there is room, waits while there is none, and gives up only when its connection is gone. */
module EchoProgress {
  import opened Chunks
  import opened SendHalf
  import opened EchoPath
  import opened EchoLoop
  import EP = EchoPath
  import RecvHalf
  import SL = ServerLink

  /** The write under way is of exactly the bytes the handler has left, and a handler that is done with bytes left has
      lost its connection. */
  ghost predicate Persists(s: Server) {
    var sd := s.link.sd;
    && (s.echo.Writing? || s.echo.Polling? ==> s.echo.rest != [])
    && (s.echo.Writing? && sd.pending.Some? ==> sd.pending.value == Held(s.echo.rest, |s.echo.rest|))
    && (s.echo.Polling? && sd.pc.Trying? ==> sd.pc.held == Held(s.echo.rest, |s.echo.rest|) && sd.pending.None?)
    && (s.echo.Polling? && sd.pc.SawFull? ==> sd.pending == Some(Held(s.echo.rest, |s.echo.rest|)))
    && (s.echo.Done? && s.echo.rest != [] ==> s.link.removed)
  }

  ghost predicate Good(s: Server) {
    ServerInv(s) && Persists(s)
  }

  lemma ReadPersists(s: Server)
    requires Good(s) && s.echo.Reading?
    ensures Persists(EchoStep(s))
  {
    ReadPops(s);
    EchoTakes(s);
  }

  lemma WritePersists(s: Server)
    requires Good(s) && s.echo.Writing?
    ensures Persists(EchoStep(s))
  {
  }

  lemma PollPersists(s: Server)
    requires Good(s) && s.echo.Polling?
    ensures Persists(EchoStep(s))
  {
    match s.link.sd.pc
    case Trying(held) =>
    case SawFull =>
    case Out =>
  }

  lemma HandlerPersists(s: Server)
    requires Good(s)
    ensures Good(EchoStep(s))
  {
    EchoStepKeepsInv(s);
    match s.echo
    case Reading => ReadPersists(s);
    case Writing(_) => WritePersists(s);
    case Polling(_) => PollPersists(s);
    case Done(_) =>
  }

  /** Steps that leave handler and writer alone. */
  lemma AsidePersists(s: Server, link: SL.Link)
    requires Persists(s) && link.sd == s.link.sd && (s.link.removed ==> link.removed)
    ensures Persists(s.(link := link))
  {
  }

  lemma StepPersists(w: Watched, e: EchoLoop.Event)
    requires EchoLoop.Inv(w) && Persists(w.s)
    ensures Persists(EchoLoop.Step(w, e).s)
  {
    match e
    case Offered(chunk) => AsidePersists(w.s, SL.Step(w.s.link, SL.Offered(chunk)));
    case LoopDoes(se) =>
      if LoopOnly(se) {
        LoopLeavesReader(w.s.link, se);
        AsidePersists(w.s, SL.Step(w.s.link, se));
      }
    case HandlerActs => HandlerPersists(w.s);
    case HandlerDrops =>
      if w.s.echo.Done? {
        AsidePersists(w.s, SL.Step(SL.Step(w.s.link, SL.DropRecvHalf), SL.DropSendHalf));
      }
  }

  lemma {:induction false} RunsPersist(caps: Caps, es: seq<EchoLoop.Event>)
    requires 0 < caps.wake
    ensures Good(EchoLoop.Exec(EchoLoop.Start(caps), es).s)
  {
    EchoLoop.RunsKeepInv(caps, es);
    if es == [] {
    } else {
      var n := |es| - 1;
      EchoLoop.RunsKeepInv(caps, es[..n]);
      RunsPersist(caps, es[..n]);
      StepPersists(EchoLoop.Exec(EchoLoop.Start(caps), es[..n]), es[n]);
    }
  }

  /** ... in every run of the whole path. */
  lemma EveryServerIsGood(caps: Caps, es: seq<EP.Event>)
    requires 0 < caps.wake
    ensures Good(Fresh(EP.Exec(EP.Start(caps), es)))
  {
    var fs := RunIsSeen(caps, es);
    RunsPersist(caps, fs);
  }

  // ----- Laws of the handler, in every run -----

  /** The handler is done with bytes left to write only if its connection was removed. */
  lemma GivesUpOnlyWhenRemoved(caps: Caps, es: seq<EP.Event>)
    requires 0 < caps.wake
    ensures var s := Fresh(EP.Exec(EP.Start(caps), es));
      s.echo.Done? && s.echo.rest != [] ==> s.link.removed
  {
    EveryServerIsGood(caps, es);
  }

  /** With bytes to write, an open queue and room, its next two actions enqueue exactly these bytes, and it reads on. */
  lemma WritesWhatItHas(caps: Caps, es: seq<EP.Event>)
    requires 0 < caps.wake
    ensures var w := EP.Exec(EP.Start(caps), es);
      w.srv.Some? && w.srv.value.echo.Writing? && w.srv.value.link.q.rxOpen
      && |w.srv.value.link.q.items| < w.srv.value.link.q.cap ==>
        var s, s' := w.srv.value, EP.Step(EP.Step(w, EchoActs), EchoActs).srv.value;
        && s'.link.q == s.link.q.(items := s.link.q.items + [s.echo.rest]) && s'.echo == Reading
        && s'.taken == s.taken && s'.rd == s.rd && s'.link.recv == s.link.recv && s'.link.wake == s.link.wake
  {
    EveryServerIsGood(caps, es);
  }

  /** With no room and no token its next three actions leave it waiting with the same bytes. */
  lemma WaitsForRoom(caps: Caps, es: seq<EP.Event>)
    requires 0 < caps.wake
    ensures var w := EP.Exec(EP.Start(caps), es);
      w.srv.Some? && w.srv.value.echo.Writing? && !w.srv.value.link.removed
      && |w.srv.value.link.q.items| >= w.srv.value.link.q.cap && w.srv.value.link.wake.items == [] ==>
        var s, s' := w.srv.value, EP.Step(EP.Step(EP.Step(w, EchoActs), EchoActs), EchoActs).srv.value;
        && s'.echo == Writing(s.echo.rest) && s'.link.sd.pending == Some(Held(s.echo.rest, |s.echo.rest|))
        && s'.link.sd.result == Pending && s'.link.q == s.link.q && s'.taken == s.taken
  {
    EveryServerIsGood(caps, es);
    var w := EP.Exec(EP.Start(caps), es);
    if w.srv.Some? && w.srv.value.echo.Writing? && !w.srv.value.link.removed
       && |w.srv.value.link.q.items| >= w.srv.value.link.q.cap && w.srv.value.link.wake.items == [] {
      FullAndWaiting(w.srv.value);
    }
  }

  lemma FullAndWaiting(s: Server)
    requires Good(s) && s.echo.Writing? && !s.link.removed
    requires |s.link.q.items| >= s.link.q.cap && s.link.wake.items == []
    ensures var s' := EchoStep(EchoStep(EchoStep(s)));
      && s'.echo == Writing(s.echo.rest) && s'.link.sd.pending == Some(Held(s.echo.rest, |s.echo.rest|))
      && s'.link.sd.result == Pending && s'.link.q == s.link.q && s'.taken == s.taken
  {
    var s1 := EchoStep(s);
    var s2 := EchoStep(s1);
    assert s1.echo.Polling? && s1.link.sd.pc.Trying? && s2.echo.Polling? && s2.link.sd.pc.SawFull?;
  }

  /** With something to read its next action reads it: the carry-over or the next chunk, up to 8192 bytes. */
  lemma ReadsWhatIsThere(s: Server)
    requires s.echo.Reading? && s.rd.Valid() && s.link.recv.rxOpen
    requires s.rd.Rest() != [] || (s.link.recv.items != [] && s.link.recv.items[0] != [])
    ensures var next := if s.rd.Rest() != [] then s.rd.Rest() else s.link.recv.items[0];
      var out := if |next| <= 8192 then next else next[..8192];
      && EchoStep(s).echo == Writing(out) && EchoStep(s).taken == s.taken + out
      && EchoStep(s).rd.Valid() && EchoStep(s).rd.Rest() == next[|out|..]
      && EchoStep(s).link.recv.items == if s.rd.Rest() != [] then s.link.recv.items else s.link.recv.items[1..]
  {
    EchoTakes(s);
    RecvHalf.PollTakes(s.rd, s.link.recv, ECHO_BUFFER);
  }

  /** A FIN that arrives is offered to the reader behind everything offered before, on either side. */
  lemma MarkersArrive(w: World)
    ensures w.srv.Some? && FinArrives(w, 0) && Takes(w.srv.value.link) ==>
      EP.Step(w, ServerFin(0)).srv.value.link.recv.items == w.srv.value.link.recv.items + [[]]
    ensures FinAt(w.DownChunks(), w.toClient) && w.c.b.pc.Idle? && w.c.b.recv.Accepts() ==>
      EP.Step(w, ClientFin(0)).c.b.recv.items == w.c.b.recv.items + [[]]
  {
  }

  /** A handler that is done drops both halves, and nothing else. */
  lemma DropsItsStream(s: Server, w: World)
    requires w.srv == Some(s) && s.echo.Done? && s.link.sd.pc.Out?
    ensures var s' := EP.Step(w, EchoDrops).srv.value;
      s' == s.(link := s.link.(recv := s.link.recv.(rxOpen := false), q := s.link.q.(txOpen := false),
                               wake := s.link.wake.(rxOpen := false)))
  {
  }

  /** A write that enqueued only the first part of what is left, as one held from before may, goes on with the rest. */
  lemma PartialWriteGoesOn(s: Server, held: Held)
    requires s.echo.Polling? && s.link.sd.pc == Trying(held) && s.link.q.rxOpen && |s.link.q.items| < s.link.q.cap
    requires held.data <= s.echo.rest && 0 < held.size == |held.data|
    ensures EchoStep(s).link.q.items == s.link.q.items + [held.data]
    ensures EchoStep(s).echo ==
      if held.data == s.echo.rest then Reading else Writing(s.echo.rest[|held.data|..])
  {
  }

  /** A handler whose connection is gone is done: at once if it has yet to try its bytes, and after using up its tokens
      if it waits. */
  lemma GoneConnectionEndsWrite(s: Server)
    requires !s.link.q.rxOpen && !s.link.wake.txOpen
    ensures s.echo.Polling? && s.link.sd.pc.Trying? ==> EchoStep(s).echo == Done(s.echo.rest)
    ensures s.echo.Polling? && s.link.sd.pc.SawFull? && s.link.wake.items == [] ==>
      EchoStep(s).echo == Done(s.echo.rest)
    ensures s.echo.Writing? && s.link.sd.pc.Out? && s.link.q.txOpen ==>
      EchoStep(EchoStep(s)).echo == Done(s.echo.rest)
  {
  }

  /** With nothing to read on an open channel it goes on waiting. */
  lemma WaitsForData(s: Server)
    requires s.echo.Reading? && s.rd == RecvHalf.Reader([], 0) && s.link.recv.items == [] && s.link.recv.txOpen
    ensures EchoStep(s) == s
  {
    assert s.taken + [] == s.taken;
  }
}
