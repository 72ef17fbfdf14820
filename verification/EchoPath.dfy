/** The whole echo path: client writer, client loop, wire, server callbacks, echo handler, server loop, wire, client
    callbacks and client reader, in every interleaving. picoquic is an ordered, lossless byte stream per direction
    (section 2.2 of RFC 9000): a stream callback gets the next bytes that were added at the other side. */
module EchoPath {
  import opened Chunks
  import opened Channels
  import opened RecvHalf
  import Relay
  import CB = ClientBridge
  import CP = ClientProtocol
  import SL = ServerLink

  const ECHO_BUFFER: nat := 8192

  datatype Caps = Caps(recv: nat, send: nat, wake: nat)

  /** The echo handler: about to read, inside write_all with `rest` left to write (between or inside polls), or done
      with `rest` never written. */
  datatype Echo = Reading | Writing(rest: Chunk) | Polling(rest: Chunk) | Done(rest: Chunk) {
    function Left(): Chunk {
      if Reading? then [] else rest
    }
  }

  /** `taken` records the bytes the echo handler has read. */
  datatype Server = Server(link: SL.Link, rd: Reader, echo: Echo, taken: Chunk)

  /** `toServer` and `toClient` count the bytes handed to stream callbacks; `dropped` records that a receive channel
      refused data and `finBytes` that bytes came attached to a FIN. */
  datatype World = World(
    caps: Caps, c: CP.Client, crd: Reader, cread: Chunk, toServer: nat,
    srv: Option<Server>, toClient: nat, dropped: bool, finBytes: bool)
  {
    /** What the client added to its stream. */
    function Up(): Chunk {
      Flatten(c.b.log.added)
    }

    /** What the server added to the same stream, the other way. */
    function DownChunks(): seq<Chunk> {
      if srv.None? then [] else srv.value.link.added
    }

    function Down(): Chunk {
      Flatten(DownChunks())
    }

    /** None of the things that lose or reorder bytes has happened. */
    predicate Clean() {
      && !c.sd.misused && c.b.AddsInOrder() && !dropped && !finBytes
      && (srv.Some? ==> srv.value.link.lost == [])
    }
  }

  datatype Event =
    | Client(ce: CP.Event)
    | ClientReads(room: nat)
    | ServerData(n: nat)
    | ServerFin(n: nat)        // with `n` bytes attached
    | ServerLoop(se: SL.Event)
    | EchoActs
    | EchoDrops                // the finished handler drops its stream
    | ClientData(n: nat)
    | ClientFin(n: nat)

  function Start(caps: Caps): World {
    World(caps, CP.Start(caps.recv, caps.send, caps.wake), Reader([], 0), [], 0, None, 0, false, false)
  }

  /** Client events that are not the wire's or the reader's. */
  predicate Own(e: CP.Event) {
    !(e.Stream? && (e.ev.StreamData? || e.ev.StreamFin?)) && !e.ReaderTakes?
  }

  predicate LoopOnly(e: SL.Event) {
    e.LoopEnters? || e.LoopActs? || e.Removed?
  }

  /** One step of the echo handler: a read, the start of a poll, or the next action of the running poll. */
  function EchoStep(s: Server): Server {
    match s.echo
    case Reading =>
      var r := Poll(s.rd, s.link.recv, ECHO_BUFFER);
      Server(if s.rd.off < |s.rd.pending| then s.link else SL.Step(s.link, SL.ReaderTakes), r.rd,
             if r.poll == RecvHalf.Pending then Reading else if r.out == [] then Done([]) else Writing(r.out),
             s.taken + r.out)
    case Writing(rest) => s.(link := SL.Step(s.link, SL.Write(rest)), echo := Polling(rest))
    case Polling(rest) =>
      var link := SL.Step(s.link, SL.WriterActs);
      s.(link := link,
         echo := if !link.sd.pc.Out? then Polling(rest)
                 else
                   match link.sd.result
                   case Ready(n) =>
                     if n == 0 || n > |rest| then Done(rest)
                     else if n == |rest| then Reading
                     else Writing(rest[n..])
                   case Pending => Writing(rest)
                   case _ => Done(rest))
    case Done(_) => s
  }

  /** The server's end, made by the first stream data. */
  function Fresh(w: World): Server {
    if w.srv.Some? then w.srv.value
    else Server(SL.NewLink(w.caps.recv, w.caps.send, w.caps.wake), Reader([], 0), Reading, [])
  }

  lemma {:induction false} BeforeIsPrefix(chunks: seq<Chunk>)
    ensures Relay.Before(chunks) <= Flatten(chunks)
  {
    if chunks == [] || chunks[0] == [] {
    } else {
      BeforeIsPrefix(chunks[1..]);
    }
  }

  /** How much of a stream its receiver can get: all of it, or what was added before the first FIN, which fixes the
      final size (section 4.5 of RFC 9000). */
  function FinalSize(added: seq<Chunk>): (n: nat)
    ensures n <= |Flatten(added)|
  {
    BeforeIsPrefix(added);
    if [] in added then |Relay.Before(added)| else |Flatten(added)|
  }

  /** The FIN stands at that place of the stream. */
  predicate FinAt(added: seq<Chunk>, place: nat) {
    [] in added && place == FinalSize(added)
  }

  /** The next `n` bytes can be handed to the server's callback. */
  predicate DataArrives(w: World, n: nat) {
    && n != 0 && w.toServer + n <= FinalSize(w.c.b.log.added)
    && (w.srv.Some? ==> !w.srv.value.link.removed && w.srv.value.link.pc.Resting?)
  }

  /** The FIN can, with the last `n` bytes attached. */
  predicate FinArrives(w: World, n: nat) {
    FinAt(w.c.b.log.added, w.toServer + n) && (w.srv.Some? ==> w.srv.value.link.pc.Resting?)
  }

  function Step(w: World, e: Event): World {
    match e
    case Client(ce) => if Own(ce) then w.(c := CP.Step(w.c, ce)) else w
    case ClientReads(room) =>
      if !w.c.b.recv.rxOpen then w
      else
        var r := Poll(w.crd, w.c.b.recv, room);
        w.(c := if w.crd.off < |w.crd.pending| then w.c else CP.Step(w.c, CP.ReaderTakes),
           crd := r.rd, cread := w.cread + r.out)
    case ServerData(n) =>
      if !DataArrives(w, n) then w
      else
        var s := Fresh(w);
        w.(srv := Some(s.(link := SL.Step(s.link, SL.Offered(w.Up()[w.toServer..w.toServer + n])))),
           toServer := w.toServer + n, dropped := w.dropped || !s.link.recv.Accepts())
    case ServerFin(n) =>
      if !FinArrives(w, n) then w
      else
        w.(srv := if w.srv.None? then None
                  else Some(w.srv.value.(link := SL.Step(w.srv.value.link, SL.Offered([])))),
           toServer := w.toServer + n, finBytes := w.finBytes || n > 0)
    case ServerLoop(se) =>
      if w.srv.Some? && LoopOnly(se) then w.(srv := Some(w.srv.value.(link := SL.Step(w.srv.value.link, se)))) else w
    case EchoActs => if w.srv.Some? then w.(srv := Some(EchoStep(w.srv.value))) else w
    case EchoDrops =>
      if w.srv.Some? && w.srv.value.echo.Done? then
        w.(srv := Some(w.srv.value.(link := SL.Step(SL.Step(w.srv.value.link, SL.DropRecvHalf), SL.DropSendHalf))))
      else w
    case ClientData(n) =>
      if n == 0 || w.toClient + n > FinalSize(w.DownChunks()) || !w.c.b.pc.Idle? then w
      else
        w.(c := CP.Step(w.c, CP.Stream(CB.StreamData(w.Down()[w.toClient..w.toClient + n]))),
           toClient := w.toClient + n, dropped := w.dropped || !w.c.b.recv.Accepts())
    case ClientFin(n) =>
      if !FinAt(w.DownChunks(), w.toClient + n) || !w.c.b.pc.Idle? then w
      else
        w.(c := CP.Step(w.c, CP.Stream(CB.StreamFin([]))),
           toClient := w.toClient + n, finBytes := w.finBytes || n > 0)
  }

  function Exec(w: World, es: seq<Event>): World {
    if es == [] then w else Step(Exec(w, es[..|es| - 1]), es[|es| - 1])
  }

  // ----- One receiving hop: stream, callback, channel, reader -----

  /** Of the bytes added at the other side, the first `n` were handed over, and they are what was read followed by
      what the reader has ahead. */
  ghost predicate Hop(stream: Chunk, n: nat, read: Chunk, rd: Reader, recv: Chan<Chunk>)
    requires rd.Valid()
  {
    n <= |stream| && stream[..n] == read + Ahead(rd, recv)
  }

  lemma HopGrows(stream: Chunk, stream': Chunk, n: nat, read: Chunk, rd: Reader, recv: Chan<Chunk>)
    requires rd.Valid() && Hop(stream, n, read, rd, recv) && stream <= stream'
    ensures Hop(stream', n, read, rd, recv)
  {
    assert stream'[..n] == stream[..n];
  }

  lemma HopDelivers(stream: Chunk, n: nat, k: nat, read: Chunk, rd: Reader, recv: Chan<Chunk>)
    requires rd.Valid() && Hop(stream, n, read, rd, recv) && n + k <= |stream| && recv.Accepts()
    ensures Hop(stream, n + k, read, rd, recv.TrySend(stream[n..n + k]))
  {
    var bytes := stream[n..n + k];
    FlattenSnoc(recv.items, bytes);
    assert stream[..n + k] == stream[..n] + bytes;
    assert read + (rd.Rest() + (Flatten(recv.items) + bytes)) == read + (rd.Rest() + Flatten(recv.items)) + bytes;
  }

  lemma HopMarks(stream: Chunk, n: nat, read: Chunk, rd: Reader, recv: Chan<Chunk>)
    requires rd.Valid() && Hop(stream, n, read, rd, recv)
    ensures Hop(stream, n, read, rd, recv.TrySend([]))
  {
    FlattenSnoc(recv.items, []);
    assert Flatten(recv.items) + [] == Flatten(recv.items);
  }

  lemma HopReads(stream: Chunk, n: nat, read: Chunk, rd: Reader, recv: Chan<Chunk>, room: nat)
    requires rd.Valid() && Hop(stream, n, read, rd, recv)
    ensures var r := Poll(rd, recv, room);
      r.rd.Valid() && Hop(stream, n, read + r.out, r.rd, r.chan)
  {
    PollMeaning(rd, recv, room);
    var r := Poll(rd, recv, room);
    Assoc(read, r.out, Ahead(r.rd, r.chan));
  }

  // ----- The client's two ends -----

  lemma FlattenGrows(a: seq<Chunk>, x: Chunk)
    ensures Flatten(a) <= Flatten(a + [x])
  {
    FlattenSnoc(a, x);
  }

  /** The stream only grows. */
  lemma UpGrows(c: CP.Client, e: CP.Event)
    ensures Flatten(c.b.log.added) <= Flatten(CP.Step(c, e).b.log.added)
  {
    match e
    case LoopActs(refused) =>
      if CB.LoopStep(c.b, refused).log.added != c.b.log.added {
        FlattenGrows(c.b.log.added, c.b.pc.data);
      }
    case _ =>
  }

  /** Only the wire's own events and reads change the bytes the reader has ahead. */
  lemma OwnKeepsAhead(c: CP.Client, e: CP.Event)
    requires Own(e)
    ensures Flatten(CP.Step(c, e).b.recv.items) == Flatten(c.b.recv.items)
  {
    match e
    case Stream(_) => FlattenSnoc(c.b.recv.items, []);
    case _ =>
  }

  lemma ServerStepFacts(l: SL.Link, e: SL.Event)
    ensures Flatten(l.added) <= Flatten(SL.Step(l, e).added)
    ensures !e.ReaderTakes? && !e.Offered? ==> SL.Step(l, e).recv.items == l.recv.items
  {
    if e.LoopActs? && l.pc.Adding? {
      FlattenGrows(l.added, l.pc.data);
    }
  }

  // ----- The echo handler -----

  /** What was read is what was acknowledged by the writing half, then what is left of the current write. */
  ghost predicate EchoInv(s: Server) {
    && s.taken == Flatten(s.link.sd.acked) + s.echo.Left()
    && (s.echo.Polling? <==> !s.link.sd.pc.Out?)
    && (s.echo.Polling? ==> s.link.sd.buf == s.echo.rest)
    && (s.echo.Writing? && s.link.sd.pending.Some? ==> s.link.sd.pending.value.data <= s.echo.rest)
    && (s.echo.Reading? ==> s.link.sd.pending.None?)
    && (!s.echo.Done? ==> s.link.q.txOpen && s.link.recv.rxOpen)
  }

  ghost predicate ServerInv(s: Server) {
    SL.Inv(s.link) && s.rd.Valid() && !s.link.sd.misused && EchoInv(s)
  }

  /** A read takes from the channel what the reader's poll says. */
  lemma EchoTakes(s: Server)
    requires s.echo.Reading? && s.rd.Valid() && s.link.recv.rxOpen
    ensures EchoStep(s).link == s.link.(recv := Poll(s.rd, s.link.recv, ECHO_BUFFER).chan)
  {
  }

  lemma EchoTakesBytes(s: Server)
    requires s.echo.Reading? && s.rd.Valid() && s.taken == Flatten(s.link.sd.acked) + s.echo.Left()
    ensures EchoStep(s).taken == Flatten(s.link.sd.acked) + EchoStep(s).echo.Left()
  {
    var out := Poll(s.rd, s.link.recv, ECHO_BUFFER).out;
    Assoc(Flatten(s.link.sd.acked), [], out);
    assert [] + out == out;
  }

  lemma EchoReads(s: Server)
    requires ServerInv(s) && s.echo.Reading?
    ensures ServerInv(EchoStep(s))
  {
    EchoTakes(s);
    PollMeaning(s.rd, s.link.recv, ECHO_BUFFER);
    SL.StepKeepsInv(s.link, SL.ReaderTakes);
    EchoTakesBytes(s);
  }

  lemma EchoBegins(s: Server)
    requires ServerInv(s) && s.echo.Writing?
    ensures ServerInv(EchoStep(s))
  {
    SL.StepKeepsInv(s.link, SL.Write(s.echo.rest));
  }

  lemma EchoPolls(s: Server)
    requires ServerInv(s) && s.echo.Polling?
    ensures ServerInv(EchoStep(s))
  {
    SL.StepKeepsInv(s.link, SL.WriterActs);
    var rest, sd, sd' := s.echo.rest, s.link.sd, SL.Step(s.link, SL.WriterActs).sd;
    if sd.pc.Trying? && s.link.q.Accepts() {
      var n := sd.pc.held.size;
      assert sd'.acked == sd.acked + [rest[..n]];
      FlattenSnoc(sd.acked, rest[..n]);
      assert rest == rest[..n] + rest[n..];
      assert Flatten(sd.acked) + rest[..n] + rest[n..] == Flatten(sd.acked) + rest;
    }
  }

  lemma EchoStepKeepsInv(s: Server)
    requires ServerInv(s)
    ensures ServerInv(EchoStep(s))
  {
    match s.echo
    case Reading => EchoReads(s);
    case Writing(_) => EchoBegins(s);
    case Polling(_) => EchoPolls(s);
    case Done(_) =>
  }

  // ----- The whole path -----

  ghost predicate UpHop(w: World)
    requires w.srv.Some? ==> w.srv.value.rd.Valid()
  {
    if w.srv.None? then w.toServer == 0
    else Hop(w.Up(), w.toServer, w.srv.value.taken, w.srv.value.rd, w.srv.value.link.recv)
  }

  ghost predicate DownHop(w: World)
    requires w.crd.Valid()
  {
    Hop(w.Down(), w.toClient, w.cread, w.crd, w.c.b.recv)
  }

  ghost predicate Inv(w: World) {
    && CP.Inv(w.c) && w.crd.Valid() && 0 < w.caps.wake
    && (w.srv.Some? ==> ServerInv(w.srv.value))
    && (w.Clean() ==> UpHop(w) && DownHop(w))
  }

  /** Losses are never undone. */
  lemma ClientStaysUnclean(c: CP.Client, e: CP.Event)
    requires c.b.SlotInv()
    ensures var c' := CP.Step(c, e);
      (!c'.sd.misused ==> !c.sd.misused) && (c'.b.AddsInOrder() ==> c.b.AddsInOrder())
  {
    match e
    case LoopActs(refused) => CB.LoopStepKeepsOrder(c.b, refused);
    case _ =>
  }

  lemma ClientEventKeepsInv(w: World, ce: CP.Event)
    requires Inv(w) && Own(ce)
    ensures Inv(Step(w, Client(ce)))
  {
    var w' := Step(w, Client(ce));
    CP.StepKeepsInv(w.c, ce);
    ClientStaysUnclean(w.c, ce);
    UpGrows(w.c, ce);
    OwnKeepsAhead(w.c, ce);
    if w'.Clean() && w.srv.Some? {
      HopGrows(w.Up(), w'.Up(), w.toServer, w.srv.value.taken, w.srv.value.rd, w.srv.value.link.recv);
    }
  }

  lemma ClientReadKeepsInv(w: World, room: nat)
    requires Inv(w)
    ensures Inv(Step(w, ClientReads(room)))
  {
    var w' := Step(w, ClientReads(room));
    CP.StepKeepsInv(w.c, CP.ReaderTakes);
    PollMeaning(w.crd, w.c.b.recv, room);
    if w'.Clean() && w.c.b.recv.rxOpen {
      HopReads(w.Down(), w.toClient, w.cread, w.crd, w.c.b.recv, room);
    }
  }

  lemma OfferKeepsServerInv(s: Server, chunk: Chunk)
    requires ServerInv(s)
    ensures ServerInv(s.(link := SL.Step(s.link, SL.Offered(chunk))))
  {
    SL.StepKeepsInv(s.link, SL.Offered(chunk));
  }

  lemma FreshIsGood(w: World)
    requires Inv(w)
    ensures ServerInv(Fresh(w))
    ensures w.Clean() ==> Hop(w.Up(), w.toServer, Fresh(w).taken, Fresh(w).rd, Fresh(w).link.recv)
    ensures Flatten(Fresh(w).link.added) == w.Down()
  {
  }

  lemma ReceivedKeepsInv(w: World, s: Server, w': World)
    requires Inv(w) && ServerInv(s)
    requires w' == w.(srv := Some(s), toServer := w'.toServer, dropped := w'.dropped, finBytes := w'.finBytes)
    requires Flatten(s.link.added) == w.Down()
    requires w'.Clean() ==> w.Clean() && Hop(w.Up(), w'.toServer, s.taken, s.rd, s.link.recv)
    ensures Inv(w')
  {
    assert w'.Up() == w.Up() && w'.Down() == w.Down();
  }

  lemma DataHops(w: World, n: nat)
    requires Inv(w) && DataArrives(w, n) && Step(w, ServerData(n)).Clean()
    ensures w.Clean()
    ensures var s, bytes := Fresh(w), w.Up()[w.toServer..w.toServer + n];
      s.rd.Valid() && Hop(w.Up(), w.toServer + n, s.taken, s.rd, SL.Step(s.link, SL.Offered(bytes)).recv)
  {
    var s := Fresh(w);
    FreshIsGood(w);
    HopDelivers(w.Up(), w.toServer, n, s.taken, s.rd, s.link.recv);
  }

  lemma ServerDataKeepsInv(w: World, n: nat)
    requires Inv(w)
    ensures Inv(Step(w, ServerData(n)))
  {
    var w' := Step(w, ServerData(n));
    if DataArrives(w, n) {
      var s, bytes := Fresh(w), w.Up()[w.toServer..w.toServer + n];
      FreshIsGood(w);
      OfferKeepsServerInv(s, bytes);
      if w'.Clean() {
        DataHops(w, n);
      }
      ReceivedKeepsInv(w, s.(link := SL.Step(s.link, SL.Offered(bytes))), w');
    }
  }

  lemma ServerFinKeepsInv(w: World, n: nat)
    requires Inv(w)
    ensures Inv(Step(w, ServerFin(n)))
  {
    var w' := Step(w, ServerFin(n));
    if w' != w && w.srv.Some? {
      var s := w.srv.value;
      OfferKeepsServerInv(s, []);
      if w'.Clean() {
        HopMarks(w.Up(), w.toServer, s.taken, s.rd, s.link.recv);
      }
      ReceivedKeepsInv(w, s.(link := SL.Step(s.link, SL.Offered([]))), w');
    }
  }

  /** Server-side steps that leave the receive channel alone let the stream down grow. */
  lemma ServerStepKeepsInv(w: World, s': Server)
    requires Inv(w) && w.srv.Some? && ServerInv(s')
    requires s'.rd == w.srv.value.rd && s'.taken == w.srv.value.taken
    requires s'.link.recv.items == w.srv.value.link.recv.items
    requires Flatten(w.srv.value.link.added) <= Flatten(s'.link.added)
    requires s'.link.lost == [] ==> w.srv.value.link.lost == []
    ensures Inv(w.(srv := Some(s')))
  {
    var w' := w.(srv := Some(s'));
    if w'.Clean() {
      HopGrows(w.Down(), w'.Down(), w.toClient, w.cread, w.crd, w.c.b.recv);
    }
  }

  /** The loop's own events leave both halves and what was lost alone. */
  lemma LoopKeepsServerInv(s: Server, se: SL.Event)
    requires ServerInv(s) && LoopOnly(se)
    ensures ServerInv(s.(link := SL.Step(s.link, se)))
    ensures SL.Step(s.link, se).lost == [] ==> s.link.lost == []
  {
    SL.StepKeepsInv(s.link, se);
    assert SL.Step(s.link, se).sd == s.link.sd;
  }

  lemma ServerLoopKeepsInv(w: World, se: SL.Event)
    requires Inv(w)
    ensures Inv(Step(w, ServerLoop(se)))
  {
    if w.srv.Some? && LoopOnly(se) {
      var s := w.srv.value;
      LoopKeepsServerInv(s, se);
      ServerStepFacts(s.link, se);
      ServerStepKeepsInv(w, s.(link := SL.Step(s.link, se)));
    }
  }

  lemma EchoActsKeepsInv(w: World)
    requires Inv(w)
    ensures Inv(Step(w, EchoActs))
  {
    if w.srv.Some? {
      var s := w.srv.value;
      EchoStepKeepsInv(s);
      if s.echo.Reading? {
        EchoTakes(s);
        var w' := Step(w, EchoActs);
        if w'.Clean() {
          HopReads(w.Up(), w.toServer, s.taken, s.rd, s.link.recv, ECHO_BUFFER);
        }
      } else {
        ServerStepKeepsInv(w, EchoStep(s));
      }
    }
  }

  lemma EchoDropsKeepsInv(w: World)
    requires Inv(w)
    ensures Inv(Step(w, EchoDrops))
  {
    if w.srv.Some? && w.srv.value.echo.Done? {
      var s := w.srv.value;
      SL.StepKeepsInv(s.link, SL.DropRecvHalf);
      SL.StepKeepsInv(SL.Step(s.link, SL.DropRecvHalf), SL.DropSendHalf);
      ServerStepKeepsInv(w, s.(link := SL.Step(SL.Step(s.link, SL.DropRecvHalf), SL.DropSendHalf)));
    }
  }

  lemma ClientDataHops(w: World, n: nat)
    requires Inv(w) && Step(w, ClientData(n)) != w && Step(w, ClientData(n)).Clean()
    ensures w.Clean() && DownHop(Step(w, ClientData(n)))
  {
    HopDelivers(w.Down(), w.toClient, n, w.cread, w.crd, w.c.b.recv);
  }

  lemma ClientDataKeepsInv(w: World, n: nat)
    requires Inv(w)
    ensures Inv(Step(w, ClientData(n)))
  {
    var w' := Step(w, ClientData(n));
    if w' != w {
      CP.StepKeepsInv(w.c, CP.Stream(CB.StreamData(w.Down()[w.toClient..w.toClient + n])));
      if w'.Clean() {
        ClientDataHops(w, n);
      }
    }
  }

  lemma ClientFinKeepsInv(w: World, n: nat)
    requires Inv(w)
    ensures Inv(Step(w, ClientFin(n)))
  {
    var w' := Step(w, ClientFin(n));
    CP.StepKeepsInv(w.c, CP.Stream(CB.StreamFin([])));
    if w'.Clean() {
      HopMarks(w.Down(), w.toClient, w.cread, w.crd, w.c.b.recv);
    }
  }

  lemma StepKeepsInv(w: World, e: Event)
    requires Inv(w)
    ensures Inv(Step(w, e))
  {
    match e
    case Client(ce) =>
      if Own(ce) {
        ClientEventKeepsInv(w, ce);
      }
    case ClientReads(room) => ClientReadKeepsInv(w, room);
    case ServerData(n) => ServerDataKeepsInv(w, n);
    case ServerFin(n) => ServerFinKeepsInv(w, n);
    case ServerLoop(se) => ServerLoopKeepsInv(w, se);
    case EchoActs => EchoActsKeepsInv(w);
    case EchoDrops => EchoDropsKeepsInv(w);
    case ClientData(n) => ClientDataKeepsInv(w, n);
    case ClientFin(n) => ClientFinKeepsInv(w, n);
  }

  lemma {:induction false} RunsKeepInv(caps: Caps, es: seq<Event>)
    requires 0 < caps.wake
    ensures Inv(Exec(Start(caps), es))
  {
    if es != [] {
      RunsKeepInv(caps, es[..|es| - 1]);
      StepKeepsInv(Exec(Start(caps), es[..|es| - 1]), es[|es| - 1]);
    } else {
      CP.StartIsGood(caps.recv, caps.send, caps.wake);
    }
  }

  /** Every buffer between the client's writer and its reader, the reader's end first. */
  ghost function InTransit(w: World): Chunk
    requires w.crd.Valid() && (w.srv.Some? ==> w.srv.value.rd.Valid())
    requires w.toClient <= |w.Down()| && w.toServer <= |w.Up()|
  {
    var up := w.Up()[w.toServer..] + Flatten(w.c.b.InFlight());
    Ahead(w.crd, w.c.b.recv) + (w.Down()[w.toClient..] + (AtServer(w) + up))
  }

  /** The server's send queue and hand, the echo handler, and the server's receiving side. */
  ghost function AtServer(w: World): Chunk
    requires w.srv.Some? ==> w.srv.value.rd.Valid()
  {
    if w.srv.None? then []
    else
      var s := w.srv.value;
      Flatten(s.link.InFlight()) + (s.echo.Left() + Ahead(s.rd, s.link.recv))
  }

  /** End-to-end echo: in every interleaving in which no add was refused harmfully, no receive channel refused data,
      no FIN carried bytes and no write was misused, the bytes acknowledged to the client's writer are the bytes its
      reader got, followed by exactly what the buffers on the way hold, in order. */
  lemma EchoConservation(caps: Caps, es: seq<Event>)
    requires 0 < caps.wake
    ensures var w := Exec(Start(caps), es);
      w.Clean() ==>
        && w.crd.Valid() && (w.srv.Some? ==> w.srv.value.rd.Valid())
        && w.toClient <= |w.Down()| && w.toServer <= |w.Up()|
        && Flatten(w.c.sd.acked) == w.cread + InTransit(w)
  {
    RunsKeepInv(caps, es);
    var w := Exec(Start(caps), es);
    if w.Clean() {
      EchoEquation(w);
    }
  }

  /** The client only ever reads back a prefix of what was acknowledged to its writer. */
  lemma EchoSafety(caps: Caps, es: seq<Event>)
    requires 0 < caps.wake
    ensures var w := Exec(Start(caps), es);
      w.Clean() ==> w.cread <= Flatten(w.c.sd.acked)
  {
    EchoConservation(caps, es);
  }

  lemma ServerEquation(w: World)
    requires Inv(w) && w.Clean()
    ensures w.Up()[..w.toServer] == w.Down() + AtServer(w)
  {
    if w.srv.Some? {
      var s := w.srv.value;
      FlattenConcat(s.link.added, s.link.InFlight());
      Assoc(w.Down(), Flatten(s.link.InFlight()), s.echo.Left());
      Assoc(w.Down() + Flatten(s.link.InFlight()), s.echo.Left(), Ahead(s.rd, s.link.recv));
      Assoc(w.Down(), Flatten(s.link.InFlight()), s.echo.Left() + Ahead(s.rd, s.link.recv));
    }
  }

  lemma Split(s: Chunk, n: nat)
    requires n <= |s|
    ensures s[..n] + s[n..] == s
  {
  }

  lemma EchoEquation(w: World)
    requires Inv(w) && w.Clean()
    ensures w.toClient <= |w.Down()| && w.toServer <= |w.Up()|
    ensures Flatten(w.c.sd.acked) == w.cread + InTransit(w)
  {
    FlattenConcat(w.c.b.log.added, w.c.b.InFlight());
    ServerEquation(w);
    var last, up, down := Flatten(w.c.b.InFlight()), w.Up()[w.toServer..], w.Down()[w.toClient..];
    var mid, ahead := AtServer(w), Ahead(w.crd, w.c.b.recv);
    calc {
      Flatten(w.c.sd.acked);
      w.Up() + last;
      { Split(w.Up(), w.toServer); }
      (w.Up()[..w.toServer] + up) + last;
      { Assoc(w.Up()[..w.toServer], up, last); }
      (w.Down() + mid) + (up + last);
      { Assoc(w.Down(), mid, up + last); Split(w.Down(), w.toClient); }
      (w.Down()[..w.toClient] + down) + (mid + (up + last));
      { Assoc(w.Down()[..w.toClient], down, mid + (up + last)); }
      (w.cread + ahead) + (down + (mid + (up + last)));
      { Assoc(w.cread, ahead, down + (mid + (up + last))); }
      w.cread + InTransit(w);
    }
  }
}
