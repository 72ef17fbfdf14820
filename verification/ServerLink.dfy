/** One bound server connection: every interleaving of its writer and the server's packet loop. */
module ServerLink {
  import opened Chunks
  import opened Channels
  import opened SendHalf

  /** Where the loop thread is with this connection: elsewhere, or draining its send queue. */
  datatype LinkPc = Resting | Receiving | Adding(data: Chunk) | Waking

  /** `added` lists what picoquic accepted on the stream and `lost` what it refused, which the server ignores. */
  datatype Link = Link(
    recv: Chan<Chunk>, q: Chan<Chunk>, wake: Chan<Token>, pc: LinkPc, removed: bool,
    added: seq<Chunk>, lost: seq<Chunk>, sd: Sender)
  {
    function Outbox(): Outbox {
      SendHalf.Outbox.Outbox(sd, q, wake)
    }

    function WithOutbox(o: Outbox): Link {
      this.(q := o.q, wake := o.wake, sd := o.sd)
    }

    function Hand(): seq<Chunk> {
      if pc.Adding? then [pc.data] else []
    }

    function InFlight(): seq<Chunk> {
      Hand() + q.items
    }
  }

  function NewLink(recvCap: nat, sendCap: nat, wakeCap: nat): Link {
    Link(NewChan(recvCap), NewChan(sendCap), NewChan(wakeCap), Resting, false, [], [], IDLE_SENDER)
  }

  datatype Event =
    | Write(buf: Chunk)
    | WriterActs
    | ShutDown
    | DropSendHalf
    | DropRecvHalf
    | ReaderTakes
    | Offered(chunk: Chunk)     // a stream callback offers a chunk or an end marker to the reader
    | LoopEnters                // AFTER_* reaches this connection
    | LoopActs(refused: bool)
    | Removed                   // the connection is closed or replaced in the table

  function LoopStep(l: Link, refused: bool): Link {
    match l.pc
    case Resting => l
    case Receiving =>
      (match l.q.RecvResult()
       case Got(data) => l.(q := l.q.TryRecv(), pc := Adding(data))
       case _ => l.(pc := Resting))
    case Adding(data) =>
      if refused then l.(lost := l.lost + [data], pc := Waking) else l.(added := l.added + [data], pc := Waking)
    case Waking => l.(wake := l.wake.TrySend(Token), pc := Receiving)
  }

  function Step(l: Link, e: Event): Link {
    match e
    case Write(buf) => if l.sd.pc.Out? && l.q.txOpen then l.(sd := Begin(l.sd, buf)) else l
    case WriterActs => l.WithOutbox(Advance(l.Outbox()))
    case ShutDown => if l.sd.pc.Out? && l.q.txOpen then l.WithOutbox(Shutdown(l.Outbox())) else l
    case DropSendHalf =>
      if l.sd.pc.Out? then l.(q := l.q.(txOpen := false), wake := l.wake.(rxOpen := false)) else l
    case DropRecvHalf => l.(recv := l.recv.(rxOpen := false))
    case ReaderTakes => if l.recv.rxOpen then l.(recv := l.recv.TryRecv()) else l
    case Offered(chunk) => if l.pc.Resting? && !l.removed then l.(recv := l.recv.TrySend(chunk)) else l
    case LoopEnters => if l.pc.Resting? && !l.removed then l.(pc := Receiving) else l
    case LoopActs(refused) => LoopStep(l, refused)
    case Removed =>
      if l.pc.Resting? then
        l.(removed := true, recv := l.recv.(txOpen := false), q := l.q.(rxOpen := false),
           wake := l.wake.(txOpen := false))
      else l
  }

  function Exec(l: Link, es: seq<Event>): Link {
    if es == [] then l else Step(Exec(l, es[..|es| - 1]), es[|es| - 1])
  }

  ghost predicate WakeInv(l: Link) {
    && 0 < l.wake.cap
    && l.q.txOpen == l.wake.rxOpen
    && l.q.rxOpen == l.wake.txOpen == !l.removed
    && (l.removed ==> l.pc.Resting?)
    && (AwaitsToken(l.sd) && l.q.txOpen && !l.removed ==>
         l.wake.items != [] || |l.q.items| >= l.q.cap || l.pc.Adding? || l.pc.Waking?)
  }

  ghost predicate FifoInv(l: Link) {
    && |l.sd.enqueued| == |l.added| + |l.lost| + |l.InFlight()|
    && (l.lost == [] ==> l.sd.enqueued == l.added + l.InFlight())
  }

  ghost predicate Inv(l: Link) {
    WakeInv(l) && FifoInv(l) && SenderInv(l.sd)
  }

  lemma LoopStepKeepsFifo(l: Link, refused: bool)
    requires FifoInv(l)
    ensures FifoInv(LoopStep(l, refused))
  {
    match l.pc
    case Receiving =>
      if l.q.items != [] {
        assert l.q.items == [l.q.items[0]] + l.q.items[1..];
        assert LoopStep(l, refused).InFlight() == l.InFlight();
      }
    case Adding(data) =>
      assert l.added + l.InFlight() == l.added + [data] + l.q.items;
    case _ =>
  }

  lemma WriterKeepsFifo(l: Link, o: Outbox)
    requires FifoInv(l) && (o == Advance(l.Outbox()) || o == Shutdown(l.Outbox()))
    ensures FifoInv(l.WithOutbox(o))
  {
    if o.q != l.q {
      var x := o.q.items[|l.q.items|];
      assert l.WithOutbox(o).InFlight() == l.InFlight() + [x];
      assert l.added + (l.InFlight() + [x]) == (l.added + l.InFlight()) + [x];
    }
  }

  lemma StepKeepsFifo(l: Link, e: Event)
    requires FifoInv(l)
    ensures FifoInv(Step(l, e))
  {
    match e
    case WriterActs => WriterKeepsFifo(l, Advance(l.Outbox()));
    case ShutDown => WriterKeepsFifo(l, Shutdown(l.Outbox()));
    case LoopActs(refused) => LoopStepKeepsFifo(l, refused);
    case _ => assert Step(l, e).InFlight() == l.InFlight();
  }

  lemma WriterKeepsWake(l: Link)
    requires WakeInv(l)
    ensures WakeInv(l.WithOutbox(Advance(l.Outbox())))
  {
    match l.sd.pc
    case Trying(_) =>
    case SawFull =>
    case Out =>
  }

  lemma LoopStepKeepsWake(l: Link, refused: bool)
    requires WakeInv(l)
    ensures WakeInv(LoopStep(l, refused))
  {
    match l.pc
    case Receiving =>
    case Adding(_) =>
    case Waking =>
    case Resting =>
  }

  lemma StepKeepsWake(l: Link, e: Event)
    requires WakeInv(l)
    ensures WakeInv(Step(l, e))
  {
    match e
    case WriterActs => WriterKeepsWake(l);
    case LoopActs(refused) => LoopStepKeepsWake(l, refused);
    case _ =>
  }

  lemma StepKeepsInv(l: Link, e: Event)
    requires Inv(l)
    ensures Inv(Step(l, e))
  {
    StepKeepsFifo(l, e);
    StepKeepsWake(l, e);
    SenderStepsKeepInv(l.Outbox(), if e.Write? then e.buf else []);
  }

  lemma {:induction false} RunsKeepInv(recvCap: nat, sendCap: nat, wakeCap: nat, es: seq<Event>)
    requires 0 < wakeCap
    ensures Inv(Exec(NewLink(recvCap, sendCap, wakeCap), es))
  {
    if es == [] {
    } else {
      RunsKeepInv(recvCap, sendCap, wakeCap, es[..|es| - 1]);
      StepKeepsInv(Exec(NewLink(recvCap, sendCap, wakeCap), es[..|es| - 1]), es[|es| - 1]);
    }
  }

  /** The server's side of no lost wake-up: a waiting writer that finds no token faces a full queue, an unfinished
      wake for a chunk just taken, or a removed connection, whose closed wake channel ends the wait. */
  lemma NoLostWakeup(recvCap: nat, sendCap: nat, wakeCap: nat, es: seq<Event>)
    requires 0 < wakeCap
    ensures var l := Exec(NewLink(recvCap, sendCap, wakeCap), es);
      AwaitsToken(l.sd) && l.q.txOpen && l.wake.items == [] ==>
        |l.q.items| >= l.q.cap || l.pc.Adding? || l.pc.Waking? || (l.removed && l.wake.RecvResult() == Ended)
  {
    RunsKeepInv(recvCap, sendCap, wakeCap, es);
  }

  lemma {:induction false} RunsKeepFifo(l: Link, es: seq<Event>)
    requires FifoInv(l)
    ensures FifoInv(Exec(l, es))
  {
    if es == [] {
    } else {
      RunsKeepFifo(l, es[..|es| - 1]);
      StepKeepsFifo(Exec(l, es[..|es| - 1]), es[|es| - 1]);
    }
  }

  /** picoquic refuses the add of the chunk in hand. */
  predicate Refuses(l: Link, e: Event) {
    e.LoopActs? && e.refused && l.pc.Adding?
  }

  ghost predicate RefusedAt(l: Link, es: seq<Event>, i: nat)
    requires i < |es|
  {
    Refuses(Exec(l, es[..i]), es[i])
  }

  ghost predicate NoneRefused(l: Link, es: seq<Event>) {
    forall i: nat | i < |es| :: !RefusedAt(l, es, i)
  }

  lemma NoneRefusedSnoc(l: Link, es: seq<Event>, n: nat)
    requires |es| == n + 1
    ensures NoneRefused(l, es) <==> NoneRefused(l, es[..n]) && !Refuses(Exec(l, es[..n]), es[n])
  {
    forall i: nat | i < n ensures RefusedAt(l, es[..n], i) <==> RefusedAt(l, es, i) {
      assert es[..n][..i] == es[..i];
    }
    assert RefusedAt(l, es, n) <==> Refuses(Exec(l, es[..n]), es[n]);
  }

  lemma LostByOne(l: Link, e: Event)
    ensures Step(l, e).lost == [] <==> l.lost == [] && !Refuses(l, e)
  {
    match e
    case LoopActs(refused) =>
    case _ =>
  }

  lemma {:induction false} LostByAny(l: Link, es: seq<Event>)
    requires l.lost == []
    ensures Exec(l, es).lost == [] <==> NoneRefused(l, es)
  {
    if es == [] {
    } else {
      var n := |es| - 1;
      LostByAny(l, es[..n]);
      NoneRefusedSnoc(l, es, n);
      LostByOne(Exec(l, es[..n]), es[n]);
    }
  }

  lemma MissingWhatIsLost(l: Link)
    requires FifoInv(l)
    ensures l.sd.enqueued == l.added + l.InFlight() <==> l.lost == []
  {
    assert |l.added + l.InFlight()| == |l.added| + |l.InFlight()|;
  }

  /** Over every run the stream and what is in flight are what the writer enqueued, in order, exactly when picoquic
      refused no add. */
  lemma QueueReachesStreamExactly(recvCap: nat, sendCap: nat, wakeCap: nat, es: seq<Event>)
    ensures var s := NewLink(recvCap, sendCap, wakeCap);
      Exec(s, es).sd.enqueued == Exec(s, es).added + Exec(s, es).InFlight() <==> NoneRefused(s, es)
  {
    var s := NewLink(recvCap, sendCap, wakeCap);
    RunsKeepFifo(s, es);
    LostByAny(s, es);
    MissingWhatIsLost(Exec(s, es));
  }

  lemma LostStays(l: Link, e: Event)
    requires l.lost != []
    ensures Step(l, e).lost != []
  {
    match e
    case LoopActs(refused) =>
    case _ =>
  }

  lemma {:induction false} LostForGood(l: Link, es: seq<Event>)
    requires l.lost != []
    ensures Exec(l, es).lost != []
  {
    if es == [] {
    } else {
      LostForGood(l, es[..|es| - 1]);
      LostStays(Exec(l, es[..|es| - 1]), es[|es| - 1]);
    }
  }

  /** Some run leads from `l` to `l'`. */
  ghost predicate Reaches(l: Link, l': Link) {
    exists es: seq<Event> :: Exec(l, es) == l'
  }

  lemma ReachesNext(l: Link, l': Link, e: Event)
    requires Reaches(l, l')
    ensures Reaches(l, Step(l', e))
  {
    var es: seq<Event> :| Exec(l, es) == l';
    assert (es + [e])[..|es|] == es;
    assert Exec(l, es + [e]) == Step(l', e);
  }

  lemma {:induction false} ReachesRun(l: Link, l': Link, es: seq<Event>)
    requires Reaches(l, l')
    ensures Reaches(l, Exec(l', es))
  {
    if es == [] {
    } else {
      ReachesRun(l, l', es[..|es| - 1]);
      ReachesNext(l, Exec(l', es[..|es| - 1]), es[|es| - 1]);
    }
  }

  /** A write that finds room, and the drain that takes it. */
  lemma WrittenAndTaken(l: Link) returns (l': Link)
    requires l == NewLink(4096, 512, 512)
    ensures Reaches(l, l')
    ensures l' == l.(pc := Adding([1]), sd := l'.sd)
    ensures !l'.sd.misused && l'.sd.acked == l'.sd.enqueued == [[1]]
  {
    assert Exec(l, []) == l;
    var l1 := Step(l, Write([1]));
    var l2 := Step(l1, WriterActs);
    ReachesNext(l, l, Write([1]));
    ReachesNext(l, l1, WriterActs);
    assert Acknowledged([1], 1) == [1] && l2.q.items == [[1]];
    var l3 := Step(l2, LoopEnters);
    ReachesNext(l, l2, LoopEnters);
    ReachesNext(l, l3, LoopActs(false));
    l' := Step(l3, LoopActs(false));
  }

  /** One refused add, and an acknowledged chunk is neither on the stream nor in flight while its writer is woken as
      if it were; however the run goes on, the stream and what is in flight are never again what was enqueued. */
  lemma RefusedAddIsIgnored() returns (l: Link)
    ensures Reaches(NewLink(4096, 512, 512), l)
    ensures l.sd.acked == [[1]] && !l.sd.misused && l.added == [] && l.InFlight() == []
    ensures l.pc.Resting? && l.wake.items == [Token]
    ensures forall more: seq<Event> ::
      Exec(l, more).sd.enqueued != Exec(l, more).added + Exec(l, more).InFlight()
  {
    var s := NewLink(4096, 512, 512);
    var l1 := WrittenAndTaken(s);
    var l2 := Step(l1, LoopActs(true));
    var l3 := Step(l2, LoopActs(false));
    l := Step(l3, LoopActs(false));
    ReachesNext(s, l1, LoopActs(true));
    ReachesNext(s, l2, LoopActs(false));
    ReachesNext(s, l3, LoopActs(false));
    forall more: seq<Event> ensures Exec(l, more).sd.enqueued != Exec(l, more).added + Exec(l, more).InFlight() {
      LostForGood(l, more);
      ReachesRun(s, l, more);
      var es: seq<Event> :| Exec(s, es) == Exec(l, more);
      RunsKeepFifo(s, es);
      MissingWhatIsLost(Exec(l, more));
    }
  }

  /** The writer drops its half; it does so between two calls only. */
  predicate DropsWriter(l: Link, e: Event) {
    e.DropSendHalf? && l.sd.pc.Out?
  }

  /** The connection is removed; so only between two callbacks. */
  predicate Removes(l: Link, e: Event) {
    e.Removed? && l.pc.Resting?
  }

  /** An end of a connection's channels is closed by nothing but its owner: the reading half, the writing half, or the
      removal of the connection. */
  lemma EndsExactly(l: Link, e: Event)
    ensures var l' := Step(l, e);
      && (l'.recv.rxOpen <==> l.recv.rxOpen && e != DropRecvHalf)
      && (l'.recv.txOpen <==> l.recv.txOpen && !Removes(l, e))
      && (l'.q.txOpen <==> l.q.txOpen && !DropsWriter(l, e))
      && (l'.wake.rxOpen <==> l.wake.rxOpen && !DropsWriter(l, e))
      && (l'.q.rxOpen <==> l.q.rxOpen && !Removes(l, e))
      && (l'.wake.txOpen <==> l.wake.txOpen && !Removes(l, e))
      && (l'.removed <==> l.removed || Removes(l, e))
  {
    match e
    case WriterActs => WriterKeepsEnds(l);
    case LoopActs(refused) =>
    case _ =>
  }

  lemma WriterKeepsEnds(l: Link)
    ensures var o := Advance(l.Outbox());
      && o.q.txOpen == l.q.txOpen && o.wake.rxOpen == l.wake.rxOpen
      && o.q.rxOpen == l.q.rxOpen && o.wake.txOpen == l.wake.txOpen
  {
  }

  /** The reader's channel changes only by an offer between two callbacks, which is taken if there is room and the
      reader is alive, and by the reader taking the oldest chunk. */
  lemma ReceivedExactly(l: Link, e: Event)
    ensures var items, items' := l.recv.items, Step(l, e).recv.items;
      if e.Offered? && l.pc.Resting? && !l.removed && l.recv.rxOpen && |items| < l.recv.cap then
        items' == items + [e.chunk]
      else if e.ReaderTakes? && l.recv.rxOpen && items != [] then items' == items[1..]
      else items' == items
  {
    match e
    case LoopActs(refused) =>
    case _ =>
  }
}
