/** The echo handler of the whole path and the copy loop are the same loop: a bridged receive half is a reader in the
    copy loop's sense, and over every run the handler writes back what the loop would. */
module EchoLoop {
  import opened Chunks
  import opened Channels
  import opened RecvHalf
  import opened EchoPath
  import EP = EchoPath
  import Relay
  import SL = ServerLink

  // ----- A bridged receive half is a reader -----

  /** What is still to be read, as arrivals: the carry-over, then the queue. */
  ghost function Arrivals(rd: Reader, chan: Chan<Chunk>): seq<Chunk>
    requires rd.Valid()
  {
    (if rd.Rest() == [] then [] else [rd.Rest()]) + chan.items
  }

  /** A read that does not wait returns the next arrival, or the first part of it if it does not fit, or nothing at the
      end of the stream; it waits exactly when nothing is there and more may come. */
  lemma PollIsRead(rd: Reader, chan: Chan<Chunk>, room: nat)
    requires rd.Valid() && 0 < room
    ensures var r, parts := Poll(rd, chan, room), Relay.Split(Arrivals(rd, chan), room);
      && r.rd.Valid() && (r.poll == Pending <==> parts == [] && chan.txOpen)
      && r.out == (if parts == [] then [] else parts[0])
      && Arrivals(r.rd, r.chan) == if parts == [] then [] else parts[1..]
  {
    var r, left := Poll(rd, chan, room), Arrivals(rd, chan);
    PollTakes(rd, chan, room);
    if left != [] {
      assert left[1..] == r.chan.items;
      assert r.out == if |left[0]| <= room then left[0] else left[0][..room];
      assert r.rd.Rest() == if |left[0]| <= room then [] else left[0][room..];
    }
  }

  // ----- Runs of the handler -----

  /** The server's end of a connection and everything its receive channel took. */
  datatype Watched = Watched(s: Server, arrivals: seq<Chunk>)

  datatype Event = Offered(chunk: Chunk) | LoopDoes(se: SL.Event) | HandlerActs | HandlerDrops

  function Start(caps: Caps): Watched {
    Watched(Server(SL.NewLink(caps.recv, caps.send, caps.wake), Reader([], 0), Reading, []), [])
  }

  predicate Takes(l: SL.Link) {
    l.pc.Resting? && !l.removed && l.recv.Accepts()
  }

  function Step(w: Watched, e: Event): Watched {
    match e
    case Offered(chunk) =>
      Watched(w.s.(link := SL.Step(w.s.link, SL.Offered(chunk))),
              if Takes(w.s.link) then w.arrivals + [chunk] else w.arrivals)
    case LoopDoes(se) => if LoopOnly(se) then w.(s := w.s.(link := SL.Step(w.s.link, se))) else w
    case HandlerActs => w.(s := EchoStep(w.s))
    case HandlerDrops =>
      if w.s.echo.Done? then w.(s := w.s.(link := SL.Step(SL.Step(w.s.link, SL.DropRecvHalf), SL.DropSendHalf))) else w
  }

  function Exec(w: Watched, es: seq<Event>): Watched {
    if es == [] then w else Step(Exec(w, es[..|es| - 1]), es[|es| - 1])
  }

  /** The handler left its loop at an empty read. */
  predicate Finished(s: Server) {
    s.echo == Done([])
  }

  /** `used` are the arrivals taken out of the channel: all of them read or carried over until an empty read. */
  ghost predicate Follows(s: Server, used: seq<Chunk>)
    requires s.rd.Valid()
  {
    if Finished(s) then
      s.taken == Relay.Before(used) && ([] in used || (s.link.removed && s.link.recv.items == []))
    else [] !in used && Flatten(used) == s.taken + s.rd.Rest()
  }

  ghost predicate Inv(w: Watched) {
    && ServerInv(w.s)
    && w.s.link.recv.txOpen == !w.s.link.removed
    && (w.s.echo.Writing? || w.s.echo.Polling? ==> w.s.echo.rest != [])
    && exists used :: w.arrivals == used + w.s.link.recv.items && Follows(w.s, used)
  }

  lemma {:induction false} BeforeClean(used: seq<Chunk>, more: seq<Chunk>)
    requires [] !in used
    ensures Relay.Before(used + more) == Flatten(used) + Relay.Before(more)
  {
    if used == [] {
      assert used + more == more;
    } else {
      assert (used + more)[1..] == used[1..] + more;
      BeforeClean(used[1..], more);
      Assoc(used[0], Flatten(used[1..]), Relay.Before(more));
    }
  }

  lemma {:induction false} BeforeEnded(used: seq<Chunk>, more: seq<Chunk>)
    requires [] in used
    ensures Relay.Before(used + more) == Relay.Before(used)
  {
    if used[0] != [] {
      assert (used + more)[1..] == used[1..] + more;
      assert used == [used[0]] + used[1..];
      BeforeEnded(used[1..], more);
    }
  }

  lemma OfferedKeepsInv(w: Watched, chunk: Chunk)
    requires Inv(w)
    ensures Inv(Step(w, Offered(chunk)))
  {
    var used :| w.arrivals == used + w.s.link.recv.items && Follows(w.s, used);
    var w' := Step(w, Offered(chunk));
    OfferKeepsServerInv(w.s, chunk);
    Assoc(used, w.s.link.recv.items, [chunk]);
    assert w'.arrivals == used + w'.s.link.recv.items && Follows(w'.s, used);
  }

  /** Steps that leave the receive channel's content and the handler alone. */
  lemma AsideKeepsInv(w: Watched, link: SL.Link)
    requires Inv(w) && ServerInv(w.s.(link := link))
    requires link.recv.items == w.s.link.recv.items && link.recv.txOpen == !link.removed
    requires w.s.link.removed ==> link.removed
    ensures Inv(w.(s := w.s.(link := link)))
  {
    var used :| w.arrivals == used + w.s.link.recv.items && Follows(w.s, used);
    assert Follows(w.s.(link := link), used);
  }

  /** The chunk a read takes out of the channel, if any. */
  function Popped(rd: Reader, items: seq<Chunk>): seq<Chunk> {
    if rd.off < |rd.pending| || items == [] then [] else [items[0]]
  }

  lemma ReadPops(s: Server)
    requires s.echo.Reading? && s.rd.Valid() && s.link.recv.rxOpen
    ensures s.link.recv.items == Popped(s.rd, s.link.recv.items) + EchoStep(s).link.recv.items
    ensures EchoStep(s).rd.Valid() && EchoStep(s).link == s.link.(recv := EchoStep(s).link.recv)
    ensures EchoStep(s).link.recv.txOpen == s.link.recv.txOpen
    ensures EchoStep(s).echo.Writing? ==> EchoStep(s).echo.rest != []
    ensures !EchoStep(s).echo.Polling? && (Finished(EchoStep(s)) <==> AtEnd(s.rd, s.link.recv))
  {
    EchoTakes(s);
    PollTakes(s.rd, s.link.recv, ECHO_BUFFER);
    PollMeaning(s.rd, s.link.recv, ECHO_BUFFER);
  }

  /** What was read and what is carried over grow by the chunk taken. */
  lemma ReadMoves(s: Server, used: seq<Chunk>)
    requires s.echo.Reading? && s.rd.Valid() && s.link.recv.rxOpen
    requires Flatten(used) == s.taken + s.rd.Rest()
    ensures EchoStep(s).rd.Valid()
    ensures Flatten(used + Popped(s.rd, s.link.recv.items)) == EchoStep(s).taken + EchoStep(s).rd.Rest()
  {
    var r, items := Poll(s.rd, s.link.recv, ECHO_BUFFER), s.link.recv.items;
    EchoTakes(s);
    PollTakes(s.rd, s.link.recv, ECHO_BUFFER);
    Assoc(s.taken, r.out, r.rd.Rest());
    if s.rd.Rest() == [] && items != [] {
      FlattenSnoc(used, items[0]);
      assert s.taken + [] == s.taken;
    } else {
      assert used + [] == used;
    }
  }

  /** A read keeps following the arrivals; an empty one finishes the handler. */
  lemma ReadFollows(s: Server, used: seq<Chunk>)
    requires s.echo.Reading? && s.rd.Valid() && s.link.recv.rxOpen && Follows(s, used)
    requires s.link.recv.txOpen == !s.link.removed
    ensures EchoStep(s).rd.Valid() && Follows(EchoStep(s), used + Popped(s.rd, s.link.recv.items))
  {
    var s', popped := EchoStep(s), Popped(s.rd, s.link.recv.items);
    ReadPops(s);
    ReadMoves(s, used);
    if AtEnd(s.rd, s.link.recv) {
      PollTakes(s.rd, s.link.recv, ECHO_BUFFER);
      EmptyRead(s.taken, used, popped);
    }
  }

  lemma EmptyRead(taken: Chunk, used: seq<Chunk>, popped: seq<Chunk>)
    requires [] !in used && (popped == [] || popped == [[]]) && Flatten(used) == taken
    ensures Relay.Before(used + popped) == taken
  {
    BeforeClean(used, popped);
    assert Relay.Before(popped) == [] && taken + [] == taken;
  }

  lemma ReadKeepsInv(w: Watched)
    requires Inv(w) && w.s.echo.Reading?
    ensures Inv(Step(w, HandlerActs))
  {
    var s, items := w.s, w.s.link.recv.items;
    var used :| w.arrivals == used + items && Follows(s, used);
    var s', popped := EchoStep(s), Popped(s.rd, items);
    EchoStepKeepsInv(s);
    ReadPops(s);
    ReadFollows(s, used);
    Assoc(used, popped, s'.link.recv.items);
    assert w.arrivals == (used + popped) + s'.link.recv.items;
  }

  lemma WriteKeepsInv(w: Watched)
    requires Inv(w) && !w.s.echo.Reading?
    ensures Inv(Step(w, HandlerActs))
  {
    var s, s' := w.s, EchoStep(w.s);
    var used :| w.arrivals == used + s.link.recv.items && Follows(s, used);
    EchoStepKeepsInv(s);
    assert s'.link.recv == s.link.recv && s'.rd == s.rd && s'.taken == s.taken && s'.link.removed == s.link.removed;
    assert Finished(s') == Finished(s);
    assert Follows(s', used);
  }

  lemma DropsKeepInv(w: Watched)
    requires Inv(w) && w.s.echo.Done?
    ensures Inv(Step(w, HandlerDrops))
  {
    var l1 := SL.Step(w.s.link, SL.DropRecvHalf);
    SL.StepKeepsInv(w.s.link, SL.DropRecvHalf);
    SL.StepKeepsInv(l1, SL.DropSendHalf);
    AsideKeepsInv(w, SL.Step(l1, SL.DropSendHalf));
  }

  lemma LoopLeavesReader(l: SL.Link, se: SL.Event)
    requires LoopOnly(se) && l.recv.txOpen == !l.removed
    ensures var l' := SL.Step(l, se);
      l'.recv.items == l.recv.items && l'.recv.txOpen == !l'.removed && (l.removed ==> l'.removed)
  {
  }

  lemma LoopKeepsInv(w: Watched, se: SL.Event)
    requires Inv(w) && LoopOnly(se)
    ensures Inv(Step(w, LoopDoes(se)))
  {
    LoopKeepsServerInv(w.s, se);
    LoopLeavesReader(w.s.link, se);
    AsideKeepsInv(w, SL.Step(w.s.link, se));
  }

  lemma StepKeepsInv(w: Watched, e: Event)
    requires Inv(w)
    ensures Inv(Step(w, e))
  {
    match e
    case Offered(chunk) => OfferedKeepsInv(w, chunk);
    case LoopDoes(se) =>
      if LoopOnly(se) {
        LoopKeepsInv(w, se);
      }
    case HandlerActs =>
      if w.s.echo.Reading? {
        ReadKeepsInv(w);
      } else {
        WriteKeepsInv(w);
      }
    case HandlerDrops =>
      if w.s.echo.Done? {
        DropsKeepInv(w);
      }
  }

  lemma {:induction false} RunsKeepInv(caps: Caps, es: seq<Event>)
    requires 0 < caps.wake
    ensures Inv(Exec(Start(caps), es))
  {
    if es != [] {
      RunsKeepInv(caps, es[..|es| - 1]);
      StepKeepsInv(Exec(Start(caps), es[..|es| - 1]), es[|es| - 1]);
    } else {
      var w := Start(caps);
      assert w.arrivals == [] + w.s.link.recv.items && Follows(w.s, []);
    }
  }

  /** What the handler's writes acknowledged is what the copy loop would have written by then. */
  lemma FollowsTheLoop(w: Watched)
    requires Inv(w)
    ensures !Finished(w.s) ==> Relay.Copying(w.arrivals, false, w.s.taken, Arrivals(w.s.rd, w.s.link.recv))
    ensures Flatten(w.s.link.sd.acked) <= Relay.Before(w.arrivals)
    ensures Finished(w.s) ==> Flatten(w.s.link.sd.acked) == w.s.taken == Relay.Before(w.arrivals)
  {
    var items := w.s.link.recv.items;
    var used :| w.arrivals == used + items && Follows(w.s, used);
    if Finished(w.s) {
      if [] in used {
        BeforeEnded(used, items);
      } else {
        assert used + [] == used;
      }
      assert Flatten(w.s.link.sd.acked) + [] == Flatten(w.s.link.sd.acked);
    } else {
      BeforeClean(used, items);
      AheadIsArrivals(w.s.rd, w.s.link.recv);
      Assoc(w.s.taken, w.s.rd.Rest(), Relay.Before(items));
    }
  }

  lemma AheadIsArrivals(rd: Reader, chan: Chan<Chunk>)
    requires rd.Valid()
    ensures Relay.Before(Arrivals(rd, chan)) == rd.Rest() + Relay.Before(chan.items)
  {
    if rd.Rest() == [] {
      assert Arrivals(rd, chan) == chan.items && [] + Relay.Before(chan.items) == Relay.Before(chan.items);
    } else {
      Relay.BeforeCons(rd.Rest(), chan.items);
    }
  }

  // ----- The server's end within runs of the whole path -----

  /** What the server's receive channel takes in one step of the whole path. */
  function TakenNow(w: World, e: EP.Event): seq<Chunk> {
    match e
    case ServerData(n) =>
      if DataArrives(w, n) && Fresh(w).link.recv.Accepts() then [w.Up()[w.toServer..w.toServer + n]] else []
    case ServerFin(n) => if FinArrives(w, n) && w.srv.Some? && Takes(w.srv.value.link) then [[]] else []
    case _ => []
  }

  /** ... and in a run of it. */
  function Taken(caps: Caps, es: seq<EP.Event>): seq<Chunk> {
    if es == [] then []
    else Taken(caps, es[..|es| - 1]) + TakenNow(EP.Exec(EP.Start(caps), es[..|es| - 1]), es[|es| - 1])
  }

  /** What the server's end sees of a step of the whole path. */
  function Seen(w: World, e: EP.Event): Option<Event> {
    match e
    case ServerData(n) => if DataArrives(w, n) then Some(Offered(w.Up()[w.toServer..w.toServer + n])) else None
    case ServerFin(n) => if FinArrives(w, n) && w.srv.Some? then Some(Offered([])) else None
    case ServerLoop(se) => if w.srv.Some? then Some(LoopDoes(se)) else None
    case EchoActs => if w.srv.Some? then Some(HandlerActs) else None
    case EchoDrops => if w.srv.Some? then Some(HandlerDrops) else None
    case _ => None
  }

  function SeenStep(w: Watched, e: Option<Event>): Watched {
    if e.None? then w else Step(w, e.value)
  }

  lemma StepIsSeen(w: World, e: EP.Event, arrivals: seq<Chunk>)
    ensures Watched(Fresh(EP.Step(w, e)), arrivals + TakenNow(w, e)) ==
            SeenStep(Watched(Fresh(w), arrivals), Seen(w, e))
  {
    assert arrivals + [] == arrivals;
    match e
    case ServerData(n) =>
    case ServerFin(n) =>
    case ServerLoop(se) =>
    case _ =>
  }

  /** Every run of the whole path is, for the server's end, one of the runs above. */
  lemma {:induction false} RunIsSeen(caps: Caps, es: seq<EP.Event>) returns (fs: seq<Event>)
    ensures Exec(Start(caps), fs) == Watched(Fresh(EP.Exec(EP.Start(caps), es)), Taken(caps, es))
  {
    if es == [] {
      fs := [];
    } else {
      var n := |es| - 1;
      var w := EP.Exec(EP.Start(caps), es[..n]);
      fs := RunIsSeen(caps, es[..n]);
      StepIsSeen(w, es[n], Taken(caps, es[..n]));
      if Seen(w, es[n]).Some? {
        var f := Seen(w, es[n]).value;
        assert (fs + [f])[..|fs|] == fs;
        fs := fs + [f];
      }
    }
  }

  /** The echo handler is the copy loop: in every run of the whole path, until it finishes, what it read and what is
      ahead of it stand for what the server's receive channel took as they do between two passes of the loop; what its
      writes acknowledged is a prefix of what the loop copies, and all of it once it finished at an empty read. */
  lemma HandlerIsTheLoop(caps: Caps, es: seq<EP.Event>)
    requires 0 < caps.wake
    ensures var s, taken := Fresh(EP.Exec(EP.Start(caps), es)), Taken(caps, es);
      && s.rd.Valid()
      && (!Finished(s) ==> Relay.Copying(taken, false, s.taken, Arrivals(s.rd, s.link.recv)))
      && Flatten(s.link.sd.acked) <= Relay.Before(taken)
      && (Finished(s) ==> Flatten(s.link.sd.acked) == s.taken == Relay.Before(taken))
  {
    var fs := RunIsSeen(caps, es);
    RunsKeepInv(caps, fs);
    FollowsTheLoop(Exec(Start(caps), fs));
  }
}
