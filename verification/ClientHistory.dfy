/** What the client's connection state says about the stream callbacks of a run. */
module ClientHistory {
  import opened Chunks
  import opened SendHalf
  import opened ClientBridge
  import opened ClientProtocol

  predicate EndsConnection(ev: StreamEvent) {
    ev.Close? || ev.ApplicationClose? || ev.StatelessReset?
  }

  /** The chunk a stream callback offers the reader: bytes of the stream, or an end marker. */
  function OfferedBy(ev: StreamEvent): Option<Chunk> {
    match ev
    case StreamData(bytes) => if bytes == [] then None else Some(bytes)
    case StreamFin(_) | StreamReset | StopSending => Some([])
    case Close | ApplicationClose | StatelessReset => Some([])
    case Ready(_, _) | OtherEvent => None
  }

  /** The i-th event is a stream callback that takes place. */
  ghost predicate CalledBack(c: Client, es: seq<Event>, i: nat) {
    i < |es| && es[i].Stream? && Exec(c, es[..i]).b.pc.Idle?
  }

  ghost predicate MarkedAt(c: Client, es: seq<Event>, i: nat, id: nat) {
    CalledBack(c, es, i) && es[i].ev == ClientBridge.Ready(id, true)
  }

  ghost predicate NoneMarkedAfter(c: Client, es: seq<Event>, i: nat) {
    forall j: nat, id | i < j :: !MarkedAt(c, es, j, id)
  }

  /** The stream last opened, if any. */
  ghost predicate OpenedLast(c: Client, es: seq<Event>, sid: Option<nat>) {
    match sid
    case None => forall i: nat, id :: !MarkedAt(c, es, i, id)
    case Some(id) => exists i: nat :: MarkedAt(c, es, i, id) && NoneMarkedAfter(c, es, i)
  }

  ghost predicate SaysHistory(c: Client, es: seq<Event>, cl: CloseState) {
    && (cl.disconnected <==> exists i: nat :: CalledBack(c, es, i) && EndsConnection(es[i].ev))
    && (cl.cnx <==> exists i: nat :: CalledBack(c, es, i) && es[i].ev.Ready?)
    && OpenedLast(c, es, cl.sid)
  }

  lemma CalledBackBefore(c: Client, es: seq<Event>, e: Event, i: nat)
    requires i < |es|
    ensures CalledBack(c, es + [e], i) <==> CalledBack(c, es, i)
    ensures (es + [e])[i] == es[i]
  {
    assert (es + [e])[..i] == es[..i];
  }

  lemma CalledBackNow(c: Client, es: seq<Event>, e: Event)
    ensures CalledBack(c, es + [e], |es|) <==> e.Stream? && Exec(c, es).b.pc.Idle?
  {
    assert (es + [e])[..|es|] == es;
  }

  /** Events other than stream callbacks leave the connection, the stream and the disconnected flag alone. */
  lemma OnlyCallbacksChangeIt(c: Client, e: Event)
    ensures var cl, cl' := c.b.cl, Step(c, e).b.cl;
      if e.Stream? && c.b.pc.Idle? then
        && cl'.disconnected == (cl.disconnected || EndsConnection(e.ev))
        && cl'.cnx == (cl.cnx || e.ev.Ready?)
        && cl'.sid == (if e.ev.Ready? && e.ev.marked then Some(e.ev.id) else cl.sid)
      else cl'.disconnected == cl.disconnected && cl'.cnx == cl.cnx && cl'.sid == cl.sid
  {
  }

  lemma OpenedLastSnoc(c: Client, es: seq<Event>, e: Event, sid: Option<nat>)
    requires OpenedLast(c, es, sid)
    ensures OpenedLast(c, es + [e],
      if e.Stream? && Exec(c, es).b.pc.Idle? && e.ev.Ready? && e.ev.marked then Some(e.ev.id) else sid)
  {
    var n := |es|;
    CalledBackNow(c, es, e);
    forall i: nat | i < n ensures CalledBack(c, es + [e], i) <==> CalledBack(c, es, i) {
      CalledBackBefore(c, es, e, i);
    }
    if e.Stream? && Exec(c, es).b.pc.Idle? && e.ev.Ready? && e.ev.marked {
      assert MarkedAt(c, es + [e], n, e.ev.id);
    } else if sid.Some? {
      var i: nat :| MarkedAt(c, es, i, sid.value) && NoneMarkedAfter(c, es, i);
      assert MarkedAt(c, es + [e], i, sid.value);
      forall j: nat, other | i < j ensures !MarkedAt(c, es + [e], j, other) {
        if j < n {
          assert !MarkedAt(c, es, j, other);
        }
      }
    } else {
      forall i: nat, id ensures !MarkedAt(c, es + [e], i, id) {
        if i < n {
          assert !MarkedAt(c, es, i, id);
        }
      }
    }
  }

  lemma SaysHistorySnoc(c: Client, es: seq<Event>, e: Event)
    requires SaysHistory(c, es, Exec(c, es).b.cl)
    ensures SaysHistory(c, es + [e], Step(Exec(c, es), e).b.cl)
  {
    OnlyCallbacksChangeIt(Exec(c, es), e);
    OpenedLastSnoc(c, es, e, Exec(c, es).b.cl.sid);
    CalledBackNow(c, es, e);
    forall i: nat | i < |es| ensures CalledBack(c, es + [e], i) <==> CalledBack(c, es, i) {
      CalledBackBefore(c, es, e, i);
    }
  }

  /** In every run the connection counts as disconnected exactly when a close, application close or stateless reset
      was called back, as existing exactly when a ready was, and its stream is the one last marked active. */
  lemma {:induction false} FlagsAreHistory(recvCap: nat, sendCap: nat, wakeCap: nat, es: seq<Event>)
    ensures var s := Start(recvCap, sendCap, wakeCap); SaysHistory(s, es, Exec(s, es).b.cl)
  {
    var s := Start(recvCap, sendCap, wakeCap);
    if es == [] {
      NothingHappened(s);
    } else {
      var front, e := es[..|es| - 1], es[|es| - 1];
      FlagsAreHistory(recvCap, sendCap, wakeCap, front);
      SaysHistorySnoc(s, front, e);
      assert es == front + [e] && Exec(s, es) == Step(Exec(s, front), e);
    }
  }

  lemma NothingHappened(c: Client)
    requires !c.b.cl.disconnected && !c.b.cl.cnx && c.b.cl.sid.None?
    ensures SaysHistory(c, [], c.b.cl)
  {
  }

  // ----- The receive channel -----

  function OfferedNow(c: Client, e: Event): Option<Chunk> {
    if e.Stream? && c.b.pc.Idle? then OfferedBy(e.ev) else None
  }

  /** The offers of a run, in order; with `onlyTaken`, those that found room. */
  function Offers(c: Client, es: seq<Event>, onlyTaken: bool): seq<Chunk> {
    if es == [] then []
    else
      var s, e := Exec(c, es[..|es| - 1]), es[|es| - 1];
      Offers(c, es[..|es| - 1], onlyTaken) +
      if onlyTaken ==> s.b.recv.Accepts() then Opt(OfferedNow(s, e)) else []
  }

  /** How many chunks the reader took out of the channel. */
  function Reads(c: Client, es: seq<Event>): nat {
    if es == [] then 0
    else
      var s, e := Exec(c, es[..|es| - 1]), es[|es| - 1];
      Reads(c, es[..|es| - 1]) + if e.ReaderTakes? && s.b.recv.rxOpen && s.b.recv.items != [] then 1 else 0
  }

  lemma ReceivedStep(c: Client, e: Event)
    ensures var items, items' := c.b.recv.items, Step(c, e).b.recv.items;
      if e.Stream? && c.b.pc.Idle? then
        items' == items + (if c.b.recv.Accepts() then Opt(OfferedBy(e.ev)) else [])
      else if e.ReaderTakes? && c.b.recv.rxOpen && items != [] then items' == items[1..]
      else items' == items
  {
    match e
    case LoopActs(refused) =>
    case Stream(ev) =>
    case _ =>
  }

  /** The receive channel holds exactly the offered chunks and end markers that found room, less those the reader
      took, in the order of the callbacks: no callback leaves its chunk out, adds one or reorders them. */
  lemma {:induction false} ReceiveIsHistory(recvCap: nat, sendCap: nat, wakeCap: nat, es: seq<Event>)
    ensures var s := Start(recvCap, sendCap, wakeCap);
      && Reads(s, es) <= |Offers(s, es, true)|
      && Exec(s, es).b.recv.items == Offers(s, es, true)[Reads(s, es)..]
  {
    if es == [] {
    } else {
      var s, front, e := Start(recvCap, sendCap, wakeCap), es[..|es| - 1], es[|es| - 1];
      ReceiveIsHistory(recvCap, sendCap, wakeCap, front);
      ReceivedStep(Exec(s, front), e);
    }
  }

  ghost predicate OfferFindsRoom(c: Client, es: seq<Event>, i: nat)
    requires i < |es|
  {
    var s := Exec(c, es[..i]);
    OfferedNow(s, es[i]).Some? ==> s.b.recv.Accepts()
  }

  ghost predicate AllFindRoom(c: Client, es: seq<Event>) {
    forall i: nat | i < |es| :: OfferFindsRoom(c, es, i)
  }

  lemma AllFindRoomSnoc(c: Client, es: seq<Event>, n: nat)
    requires |es| == n + 1
    ensures AllFindRoom(c, es) <==> AllFindRoom(c, es[..n]) && OfferFindsRoom(c, es, n)
  {
    forall i: nat | i < n ensures OfferFindsRoom(c, es[..n], i) <==> OfferFindsRoom(c, es, i) {
      assert es[..n][..i] == es[..i];
    }
  }

  /** Every offer was taken exactly when each callback with something to offer found the reader alive and fewer
      chunks than the capacity queued. */
  lemma {:induction false} NoOfferDroppedExactly(recvCap: nat, sendCap: nat, wakeCap: nat, es: seq<Event>)
    ensures var s := Start(recvCap, sendCap, wakeCap);
      && |Offers(s, es, true)| <= |Offers(s, es, false)|
      && (Offers(s, es, true) == Offers(s, es, false) <==> AllFindRoom(s, es))
  {
    if es == [] {
    } else {
      var s, n := Start(recvCap, sendCap, wakeCap), |es| - 1;
      NoOfferDroppedExactly(recvCap, sendCap, wakeCap, es[..n]);
      AllFindRoomSnoc(s, es, n);
      OffersSnoc(s, es, n);
      var x := Opt(OfferedNow(Exec(s, es[..n]), es[n]));
      var taken := if OfferFindsRoom(s, es, n) then x else [];
      AppendsExactly(Offers(s, es[..n], true), taken, Offers(s, es[..n], false), x);
    }
  }

  lemma OffersSnoc(c: Client, es: seq<Event>, n: nat)
    requires |es| == n + 1
    ensures var x := Opt(OfferedNow(Exec(c, es[..n]), es[n]));
      && Offers(c, es, false) == Offers(c, es[..n], false) + x
      && Offers(c, es, true) == Offers(c, es[..n], true) + if OfferFindsRoom(c, es, n) then x else []
  {
  }

  // ----- Bytes attached to a FIN -----

  /** The bytes a callback carries, those attached to a FIN included. */
  function BytesNow(c: Client, e: Event): Chunk {
    if e.Stream? && c.b.pc.Idle? && (e.ev.StreamData? || e.ev.StreamFin?) then e.ev.bytes else []
  }

  /** Everything the callbacks of a run carried. */
  function BytesArrived(c: Client, es: seq<Event>): Chunk {
    if es == [] then []
    else BytesArrived(c, es[..|es| - 1]) + BytesNow(Exec(c, es[..|es| - 1]), es[|es| - 1])
  }

  predicate NoBytesOnFinNow(c: Client, e: Event) {
    e.Stream? && c.b.pc.Idle? && e.ev.StreamFin? ==> e.ev.bytes == []
  }

  ghost predicate NoBytesOnFinAt(c: Client, es: seq<Event>, i: nat)
    requires i < |es|
  {
    NoBytesOnFinNow(Exec(c, es[..i]), es[i])
  }

  ghost predicate NoBytesOnFin(c: Client, es: seq<Event>) {
    forall i: nat | i < |es| :: NoBytesOnFinAt(c, es, i)
  }

  lemma NoBytesOnFinSnoc(c: Client, es: seq<Event>, n: nat)
    requires |es| == n + 1
    ensures NoBytesOnFin(c, es) <==> NoBytesOnFin(c, es[..n]) && NoBytesOnFinNow(Exec(c, es[..n]), es[n])
  {
    forall i: nat | i < n ensures NoBytesOnFinAt(c, es[..n], i) <==> NoBytesOnFinAt(c, es, i) {
      assert es[..n][..i] == es[..i];
    }
    assert NoBytesOnFinAt(c, es, n) <==> NoBytesOnFinNow(Exec(c, es[..n]), es[n]);
  }

  lemma OfferedBytes(c: Client, e: Event)
    ensures |Flatten(Opt(OfferedNow(c, e)))| <= |BytesNow(c, e)|
    ensures Flatten(Opt(OfferedNow(c, e))) == BytesNow(c, e) <==> NoBytesOnFinNow(c, e)
  {
    var o := OfferedNow(c, e);
    if o.Some? {
      FlattenOne(o.value);
    }
  }

  /** The chunks offered to the reader hold all the bytes the callbacks of a run carried exactly when no FIN came with
      bytes attached. */
  lemma {:induction false} FinBytesIgnoredExactly(c: Client, es: seq<Event>)
    ensures |Flatten(Offers(c, es, false))| <= |BytesArrived(c, es)|
    ensures Flatten(Offers(c, es, false)) == BytesArrived(c, es) <==> NoBytesOnFin(c, es)
  {
    if es == [] {
    } else {
      var n := |es| - 1;
      var before, x := Exec(c, es[..n]), Opt(OfferedNow(Exec(c, es[..n]), es[n]));
      FinBytesIgnoredExactly(c, es[..n]);
      NoBytesOnFinSnoc(c, es, n);
      OffersSnoc(c, es, n);
      OfferedBytes(before, es[n]);
      FlattenConcat(Offers(c, es[..n], false), x);
      AppendsExactly(Flatten(Offers(c, es[..n], false)), Flatten(x), BytesArrived(c, es[..n]), BytesNow(before, es[n]));
    }
  }

  // ----- The ends of the three channels -----

  /** The application drops its writing half; it does so between two calls only. */
  predicate DropsWriter(c: Client, e: Event) {
    e.DropSendHalf? && c.sd.pc.Out?
  }

  ghost predicate DropsWriterAt(c: Client, es: seq<Event>, i: nat)
    requires i < |es|
  {
    DropsWriter(Exec(c, es[..i]), es[i])
  }

  ghost predicate WriterDropped(c: Client, es: seq<Event>) {
    exists i: nat | i < |es| :: DropsWriterAt(c, es, i)
  }

  lemma WriterDroppedSnoc(c: Client, es: seq<Event>, n: nat)
    requires |es| == n + 1
    ensures WriterDropped(c, es) <==> WriterDropped(c, es[..n]) || DropsWriter(Exec(c, es[..n]), es[n])
  {
    forall i: nat | i < n ensures DropsWriterAt(c, es[..n], i) <==> DropsWriterAt(c, es, i) {
      assert es[..n][..i] == es[..i];
    }
    assert DropsWriterAt(c, es, n) <==> DropsWriter(Exec(c, es[..n]), es[n]);
  }

  lemma EndsStep(c: Client, e: Event)
    ensures var c' := Step(c, e);
      && (c'.b.recv.rxOpen <==> c.b.recv.rxOpen && e != DropRecvHalf)
      && (c'.b.q.txOpen <==> c.b.q.txOpen && !DropsWriter(c, e))
      && (c'.b.wake.rxOpen <==> c.b.wake.rxOpen && !DropsWriter(c, e))
  {
    match e
    case LoopActs(refused) =>
    case LoopEnters(mode) =>
    case WriterActs => WriterKeepsEnds(c);
    case _ =>
  }

  lemma WriterKeepsEnds(c: Client)
    ensures var o := Advance(c.Outbox());
      o.q.txOpen == c.b.q.txOpen && o.wake.rxOpen == c.b.wake.rxOpen
  {
  }

  /** The application's ends are open exactly until it drops them: the reader's with the reading half, the writer's
      two, the queue's and the wake channel's, together with the writing half. */
  lemma {:induction false} EndsAreHistory(recvCap: nat, sendCap: nat, wakeCap: nat, es: seq<Event>)
    ensures var s := Start(recvCap, sendCap, wakeCap);
      && (Exec(s, es).b.recv.rxOpen <==> DropRecvHalf !in es)
      && (Exec(s, es).b.q.txOpen <==> !WriterDropped(s, es))
      && (Exec(s, es).b.wake.rxOpen <==> !WriterDropped(s, es))
  {
    if es == [] {
    } else {
      var s, n := Start(recvCap, sendCap, wakeCap), |es| - 1;
      EndsAreHistory(recvCap, sendCap, wakeCap, es[..n]);
      EndsStep(Exec(s, es[..n]), es[n]);
      WriterDroppedSnoc(s, es, n);
      assert es == es[..n] + [es[n]];
    }
  }

  /** When the packet loop returns, its ends close: the reader gets what is queued and then the end, a pending writer is
      reset once it has used up its tokens, and any write fails. */
  lemma LoopExitEndsBothHalves(c: Client, buf: Chunk)
    requires c.b.pc.Idle? || c.b.pc.Terminated?
    ensures var c' := Step(c, LoopExits);
      && c'.b.recv.items == c.b.recv.items && !c'.b.recv.txOpen && !c'.b.q.rxOpen && !c'.b.wake.txOpen
      && (c.sd.pc.SawFull? && c.b.wake.items == [] ==> Step(c', WriterActs).sd.result == ConnectionReset)
      && (c.sd.pc.Trying? ==> Step(c', WriterActs).sd.result == BrokenPipe)
      && (c.sd.pc.Out? && c.b.q.txOpen ==> Step(Step(c', Write(buf)), WriterActs).sd.result == BrokenPipe)
  {
  }
}
