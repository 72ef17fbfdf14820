/** The end of the stream over the whole path: what the echo handler has read when it finishes at the client's FIN. */
module EchoEnd {
  import opened Chunks
  import opened EchoPath
  import opened EchoLoop
  import Relay
  import CP = ClientProtocol
  import EP = EchoPath
  import SL = ServerLink

  // ----- Nothing harmful is ever undone -----

  predicate AtClient(e: EP.Event) {
    e.Client? || e.ClientReads? || e.ClientData? || e.ClientFin?
  }

  lemma ServerLossStays(s: Server, se: SL.Event)
    ensures SL.Step(s.link, se).lost == [] ==> s.link.lost == []
  {
    if s.link.lost != [] {
      SL.LostStays(s.link, se);
    }
  }

  lemma HandlerLosesNothing(s: Server)
    ensures EchoStep(s).link.lost == s.link.lost
  {
  }

  lemma ClientCleanBefore(w: World, e: EP.Event)
    requires EP.Inv(w) && EP.Step(w, e).Clean()
    requires AtClient(e)
    ensures w.Clean()
  {
    match e
    case Client(ce) => ClientStaysUnclean(w.c, ce);
    case ClientReads(room) => ClientStaysUnclean(w.c, CP.ReaderTakes);
    case ClientData(n) =>
    case ClientFin(n) =>
  }

  lemma ServerCleanBefore(w: World, e: EP.Event)
    requires EP.Step(w, e).Clean()
    requires !AtClient(e)
    ensures w.Clean()
  {
    match e
    case ServerData(n) =>
    case ServerFin(n) =>
    case ServerLoop(se) =>
      if w.srv.Some? {
        ServerLossStays(w.srv.value, se);
      }
    case EchoActs =>
      if w.srv.Some? {
        HandlerLosesNothing(w.srv.value);
      }
    case EchoDrops =>
  }

  // ----- What arrived, and where the FIN stands -----

  /** In a run without harm what the server's channel took are the bytes handed over so far, and once it took an end
      marker the bytes before that are those before the FIN. */
  ghost predicate EndInv(w: World, taken: seq<Chunk>) {
    w.Clean() ==>
      && w.toServer <= |w.Up()| && Flatten(taken) == w.Up()[..w.toServer]
      && ([] in taken ==> [] in w.c.b.log.added && Relay.Before(taken) == Relay.Before(w.c.b.log.added))
  }

  lemma DataKeepsEnd(w: World, taken: seq<Chunk>, n: nat)
    requires EP.Inv(w) && EndInv(w, taken) && DataArrives(w, n)
    ensures EndInv(EP.Step(w, ServerData(n)), taken + TakenNow(w, ServerData(n)))
  {
    var w' := EP.Step(w, ServerData(n));
    if w'.Clean() {
      var bytes := w.Up()[w.toServer..w.toServer + n];
      ServerCleanBefore(w, ServerData(n));
      FlattenSnoc(taken, bytes);
      assert w.Up()[..w.toServer + n] == w.Up()[..w.toServer] + bytes;
      if [] in taken {
        BeforeEnded(taken, [bytes]);
      }
    }
  }

  /** The first end marker taken cuts what was taken where the FIN cuts the stream. */
  lemma MarkerCuts(taken: seq<Chunk>, added: seq<Chunk>, n: nat)
    requires n <= |Flatten(added)| && Flatten(taken) == Flatten(added)[..n]
    requires n == |Relay.Before(added)| && [] !in taken
    ensures Relay.Before(taken + [[]]) == Relay.Before(added)
  {
    BeforeClean(taken, [[]]);
    BeforeIsPrefix(added);
    assert Relay.Before([[]]) == [] && Flatten(taken) + [] == Flatten(taken);
    assert Relay.Before(added) == Flatten(added)[..n];
  }

  lemma MarkerKeepsEnd(taken: seq<Chunk>, added: seq<Chunk>, n: nat)
    requires n <= |Flatten(added)| && Flatten(taken) == Flatten(added)[..n] && FinAt(added, n)
    requires [] in taken ==> Relay.Before(taken) == Relay.Before(added)
    ensures Flatten(taken + [[]]) == Flatten(added)[..n] && Relay.Before(taken + [[]]) == Relay.Before(added)
  {
    FlattenSnoc(taken, []);
    assert Flatten(taken) + [] == Flatten(taken);
    if [] in taken {
      BeforeEnded(taken, [[]]);
    } else {
      MarkerCuts(taken, added, n);
    }
  }

  lemma FinKeepsEnd(w: World, taken: seq<Chunk>, n: nat)
    requires EP.Inv(w) && EndInv(w, taken) && FinArrives(w, n)
    ensures EndInv(EP.Step(w, ServerFin(n)), taken + TakenNow(w, ServerFin(n)))
  {
    assert taken + [] == taken;
    if EP.Step(w, ServerFin(n)).Clean() {
      ServerCleanBefore(w, ServerFin(n));
      MarkerKeepsEnd(taken, w.c.b.log.added, w.toServer);
    }
  }

  /** Steps that leave what was handed over and taken alone; the stream may grow. */
  lemma OtherwiseKeepsEnd(w: World, w': World, taken: seq<Chunk>)
    requires EndInv(w, taken) && (w'.Clean() ==> w.Clean())
    requires w'.toServer == w.toServer && w.c.b.log.added <= w'.c.b.log.added
    ensures EndInv(w', taken)
  {
    var added, added' := w.c.b.log.added, w'.c.b.log.added;
    assert added' == added + added'[|added|..];
    FlattenConcat(added, added'[|added|..]);
    if [] in added {
      BeforeEnded(added, added'[|added|..]);
    }
  }

  lemma AddedGrows(c: CP.Client, e: CP.Event)
    ensures c.b.log.added <= CP.Step(c, e).b.log.added
  {
    match e
    case LoopActs(refused) =>
    case _ =>
  }

  lemma ClientAddsOn(w: World, e: EP.Event)
    requires AtClient(e)
    ensures w.c.b.log.added <= EP.Step(w, e).c.b.log.added && EP.Step(w, e).toServer == w.toServer
  {
    match e
    case Client(ce) => AddedGrows(w.c, ce);
    case ClientReads(room) => AddedGrows(w.c, CP.ReaderTakes);
    case ClientData(n) =>
    case ClientFin(n) =>
  }

  lemma ClientKeepsEnd(w: World, taken: seq<Chunk>, e: EP.Event)
    requires EP.Inv(w) && EndInv(w, taken) && AtClient(e)
    ensures EndInv(EP.Step(w, e), taken)
  {
    ClientAddsOn(w, e);
    if EP.Step(w, e).Clean() {
      ClientCleanBefore(w, e);
    }
    OtherwiseKeepsEnd(w, EP.Step(w, e), taken);
  }

  lemma ServerKeepsEnd(w: World, taken: seq<Chunk>, e: EP.Event)
    requires EndInv(w, taken) && (e.ServerLoop? || e.EchoActs? || e.EchoDrops?)
    ensures EndInv(EP.Step(w, e), taken)
  {
    if EP.Step(w, e).Clean() {
      ServerCleanBefore(w, e);
    }
    OtherwiseKeepsEnd(w, EP.Step(w, e), taken);
  }

  /** Events at which the server's channel takes nothing. */
  lemma NothingTaken(w: World, e: EP.Event)
    requires (e.ServerData? ==> !DataArrives(w, e.n)) && (e.ServerFin? ==> !FinArrives(w, e.n))
    ensures TakenNow(w, e) == []
    ensures e.ServerData? || e.ServerFin? ==> EP.Step(w, e) == w
  {
  }

  lemma StepKeepsEnd(w: World, taken: seq<Chunk>, e: EP.Event)
    requires EP.Inv(w) && EndInv(w, taken)
    ensures EndInv(EP.Step(w, e), taken + TakenNow(w, e))
  {
    if e.ServerData? && DataArrives(w, e.n) {
      DataKeepsEnd(w, taken, e.n);
    } else if e.ServerFin? && FinArrives(w, e.n) {
      FinKeepsEnd(w, taken, e.n);
    } else {
      NothingTaken(w, e);
      assert taken + [] == taken;
      if AtClient(e) {
        ClientKeepsEnd(w, taken, e);
      } else if !e.ServerData? && !e.ServerFin? {
        ServerKeepsEnd(w, taken, e);
      }
    }
  }

  lemma {:induction false} RunsKeepEnd(caps: Caps, es: seq<EP.Event>)
    requires 0 < caps.wake
    ensures EndInv(EP.Exec(EP.Start(caps), es), Taken(caps, es))
  {
    if es == [] {
    } else {
      var n := |es| - 1;
      EP.RunsKeepInv(caps, es[..n]);
      RunsKeepEnd(caps, es[..n]);
      StepKeepsEnd(EP.Exec(EP.Start(caps), es[..n]), Taken(caps, es[..n]), es[n]);
    }
  }

  /** In every run without harm, an echo handler that finished after the server's channel took the client's end marker
      has read, and written back, exactly the bytes acknowledged to the client's writer before its shutdown. */
  lemma FinishedHasReadAll(caps: Caps, es: seq<EP.Event>)
    requires 0 < caps.wake
    ensures var w := EP.Exec(EP.Start(caps), es);
      w.Clean() && Finished(Fresh(w)) && [] in Taken(caps, es) ==>
        && [] in w.c.sd.acked
        && Fresh(w).taken == Flatten(Fresh(w).link.sd.acked) == Relay.Before(w.c.sd.acked)
  {
    var w := EP.Exec(EP.Start(caps), es);
    EP.RunsKeepInv(caps, es);
    RunsKeepEnd(caps, es);
    HandlerIsTheLoop(caps, es);
    if w.Clean() && [] in Taken(caps, es) {
      BeforeEnded(w.c.b.log.added, w.c.b.InFlight());
    }
  }
}
