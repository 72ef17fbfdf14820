/** Every interleaving of the client's writer and the packet loop, one atomic action per event, and what holds
    over all of its runs. */
module ClientProtocol {
  import opened Chunks
  import opened PacketLoop
  import opened SendHalf
  import opened ClientBridge

  datatype Client = Client(b: Bridge, sd: Sender) {
    function Outbox(): Outbox {
      SendHalf.Outbox.Outbox(sd, b.q, b.wake)
    }

    function WithOutbox(o: Outbox): Client {
      Client(b.(q := o.q, wake := o.wake), o.sd)
    }

    /** The application still holds the stream, both halves of it. */
    predicate StreamHeld() {
      b.q.txOpen && b.recv.rxOpen
    }
  }

  datatype Event =
    | Write(buf: Chunk)         // the application enters poll_write
    | WriterActs                // the next atomic action of poll_write
    | ShutDown
    | DropSendHalf
    | DropRecvHalf
    | ReaderTakes               // poll_read receives from the receive channel
    | LoopEnters(mode: int)     // picoquic calls the loop callback
    | LoopActs(refused: bool)   // its next atomic action
    | Stream(ev: StreamEvent)   // picoquic calls the stream callback
    | LoopExits                 // the packet loop returns and the context is freed

  function Start(recvCap: nat, sendCap: nat, wakeCap: nat): Client {
    Client(NewBridge(recvCap, sendCap, wakeCap), IDLE_SENDER)
  }

  function Step(c: Client, e: Event): Client {
    match e
    case Write(buf) => if c.sd.pc.Out? && c.b.q.txOpen then c.(sd := Begin(c.sd, buf)) else c
    case WriterActs => c.WithOutbox(Advance(c.Outbox()))
    case ShutDown => if c.sd.pc.Out? && c.b.q.txOpen then c.WithOutbox(Shutdown(c.Outbox())) else c
    case DropSendHalf =>
      if c.sd.pc.Out? then c.(b := c.b.(q := c.b.q.(txOpen := false), wake := c.b.wake.(rxOpen := false))) else c
    case DropRecvHalf => c.(b := c.b.(recv := c.b.recv.(rxOpen := false)))
    case ReaderTakes => if c.b.recv.rxOpen then c.(b := c.b.(recv := c.b.recv.TryRecv())) else c
    case LoopEnters(mode) => if c.b.pc.Idle? then c.(b := StartCallback(c.b, mode)) else c
    case LoopActs(refused) => c.(b := LoopStep(c.b, refused))
    case Stream(ev) => if c.b.pc.Idle? then c.(b := OnStream(c.b, ev)) else c
    case LoopExits =>
      if c.b.pc.Idle? || c.b.pc.Terminated? then
        c.(b := c.b.(pc := Stopped, q := c.b.q.(rxOpen := false), wake := c.b.wake.(txOpen := false),
                     recv := c.b.recv.(txOpen := false)))
      else c
  }

  function Exec(c: Client, es: seq<Event>): Client {
    if es == [] then c else Step(Exec(c, es[..|es| - 1]), es[|es| - 1])
  }

  // ----- Invariants -----

  ghost predicate Draining(pc: LoopPc) {
    pc.AddPeeked? || pc.FirstWake? || pc.Drain? || pc.AddDrained?
  }

  ghost predicate Over(pc: LoopPc) {
    pc.Terminated? || pc.Stopped?
  }

  /** The close state machine. */
  ghost predicate CloseInv(b: Bridge) {
    && (b.cl.sid.Some? ==> b.cl.cnx)
    && (Draining(b.pc) ==> b.Open())
    && (b.cl.shouldClose ==> (!b.q.txOpen || !b.recv.rxOpen) && !Draining(b.pc))
    && b.cl.closes == (if b.cl.closeSent then 1 else 0)
    && (b.cl.closeSent ==> b.cl.cnx && b.cl.shouldClose)
    && (b.cl.ticks > 0 ==> b.cl.closeSent)
    && b.cl.ticks <= CLOSE_WAIT_LIMIT + 2
    && (!Over(b.pc) ==> b.cl.ticks <= CLOSE_WAIT_LIMIT + 1)
    && (b.pc.Terminated? ==> b.cl.shouldClose && (b.cl.disconnected || !b.cl.cnx || b.cl.ticks == CLOSE_WAIT_LIMIT + 2))
  }

  /** The loop will hand out a wake token before it rests with an empty slot. */
  ghost predicate WakeOwed(b: Bridge) {
    b.peek.Some? || Draining(b.pc) || b.pc.LastWake?
  }

  ghost predicate WakeInv(c: Client) {
    && 0 < c.b.wake.cap
    && c.b.q.txOpen == c.b.wake.rxOpen
    && c.b.q.rxOpen == c.b.wake.txOpen == !c.b.pc.Stopped?
    && (AwaitsToken(c.sd) && c.b.q.txOpen && c.b.q.rxOpen ==>
         c.b.wake.items != [] || |c.b.q.items| >= c.b.q.cap || WakeOwed(c.b))
  }

  /** The hand, the slot and the queue behave as one FIFO; refused adds cannot make, duplicate or hide chunks. */
  ghost predicate FifoInv(c: Client) {
    && c.b.SlotInv()
    && |c.sd.enqueued| == Size(c.b)
    && (c.b.AddsInOrder() ==> c.sd.enqueued == c.b.Order())
    && forall x :: Count(c.sd.enqueued, x) == c.b.Tally(x)
  }

  ghost predicate Inv(c: Client) {
    CloseInv(c.b) && WakeInv(c) && FifoInv(c) && SenderInv(c.sd)
  }

  // ----- The FIFO -----

  lemma LoopStepKeepsFifo(c: Client, refused: bool)
    requires FifoInv(c)
    ensures FifoInv(c.(b := LoopStep(c.b, refused)))
  {
    LoopStepKeepsOrder(c.b, refused);
    LoopStepKeepsSize(c.b, refused);
    forall x ensures LoopStep(c.b, refused).Tally(x) == c.b.Tally(x) {
      LoopStepKeepsTally(c.b, refused, x);
    }
  }

  lemma EnqueueKeepsFifo(c: Client, o: Outbox, x: Chunk)
    requires FifoInv(c) && c.b.q.Accepts()
    requires o.q == c.b.q.TrySend(x) && o.sd.enqueued == c.sd.enqueued + [x]
    ensures FifoInv(c.WithOutbox(o))
  {
    var b' := c.WithOutbox(o).b;
    assert b'.InFlight() == c.b.InFlight() + [x];
    assert c.b.AddsInOrder() ==> b'.Order() == c.b.Order() + [x];
    forall y ensures Count(o.sd.enqueued, y) == b'.Tally(y) {
      CountSnoc(c.sd.enqueued, x, y);
      CountSnoc(c.b.q.items, x, y);
    }
  }

  ghost predicate SameChunks(c: Client, c': Client) {
    && c'.sd.enqueued == c.sd.enqueued
    && c'.b.log.added == c.b.log.added && c'.b.log.lost == c.b.log.lost && c'.b.log.overtaken == c.b.log.overtaken
    && c'.b.q.items == c.b.q.items && c'.b.Hand() == c.b.Hand() && c'.b.peek == c.b.peek
    && (c.b.SlotInv() ==> c'.b.SlotInv())
  }

  lemma SameChunksKeepFifo(c: Client, c': Client)
    requires FifoInv(c) && SameChunks(c, c')
    ensures FifoInv(c')
  {
    assert c'.b.Order() == c.b.Order();
    forall x ensures c'.b.Tally(x) == c.b.Tally(x) {
    }
  }

  /** Which events move no chunk. */
  ghost predicate MovesNoChunk(e: Event) {
    match e
    case Write(_) => true
    case DropSendHalf => true
    case DropRecvHalf => true
    case ReaderTakes => true
    case LoopEnters(mode) => !IsAfter(mode)
    case Stream(_) => true
    case LoopExits => true
    case _ => false
  }

  lemma OtherStepsMoveNoChunk(c: Client, e: Event)
    requires MovesNoChunk(e)
    ensures SameChunks(c, Step(c, e))
  {
  }

  lemma AfterKeepsFifo(c: Client)
    requires FifoInv(c) && c.b.pc.Idle?
    ensures FifoInv(c.(b := StartAfter(c.b)))
  {
    var b' := StartAfter(c.b);
    assert b'.Order() == c.b.Order();
    forall x ensures b'.Tally(x) == c.b.Tally(x) {
    }
  }

  lemma WriterKeepsFifo(c: Client)
    requires FifoInv(c)
    ensures FifoInv(c.WithOutbox(Advance(c.Outbox())))
  {
    var o := Advance(c.Outbox());
    if c.sd.pc.Trying? && c.b.q.Accepts() {
      EnqueueKeepsFifo(c, o, c.sd.pc.held.data);
    } else {
      SameChunksKeepFifo(c, c.WithOutbox(o));
    }
  }

  lemma ShutDownKeepsFifo(c: Client)
    requires FifoInv(c)
    ensures FifoInv(c.WithOutbox(Shutdown(c.Outbox())))
  {
    var o := Shutdown(c.Outbox());
    if c.b.q.Accepts() {
      EnqueueKeepsFifo(c, o, []);
    } else {
      SameChunksKeepFifo(c, c.WithOutbox(o));
    }
  }

  lemma StepKeepsFifo(c: Client, e: Event)
    requires FifoInv(c)
    ensures FifoInv(Step(c, e))
  {
    match e
    case WriterActs => WriterKeepsFifo(c);
    case ShutDown => ShutDownKeepsFifo(c);
    case LoopActs(refused) => LoopStepKeepsFifo(c, refused);
    case LoopEnters(mode) =>
      if MovesNoChunk(e) {
        OtherStepsMoveNoChunk(c, e);
        SameChunksKeepFifo(c, Step(c, e));
      } else if c.b.pc.Idle? {
        AfterKeepsFifo(c);
      }
    case _ =>
      OtherStepsMoveNoChunk(c, e);
      SameChunksKeepFifo(c, Step(c, e));
  }

  // ----- Closing -----

  lemma LoopStepKeepsClose(b: Bridge, refused: bool)
    requires CloseInv(b)
    ensures CloseInv(LoopStep(b, refused))
  {
    match b.pc
    case FillPeek =>
    case AddPeeked(_) =>
    case FirstWake =>
    case Drain =>
    case AddDrained(_) =>
    case LastWake =>
    case _ =>
  }

  lemma AfterKeepsClose(b: Bridge)
    requires CloseInv(b) && b.pc.Idle?
    ensures CloseInv(StartAfter(b))
  {
  }

  lemma StreamKeepsClose(b: Bridge, ev: StreamEvent)
    requires CloseInv(b) && b.pc.Idle?
    ensures CloseInv(OnStream(b, ev))
  {
  }

  lemma WriterKeepsClose(c: Client)
    requires CloseInv(c.b)
    ensures CloseInv(c.WithOutbox(Advance(c.Outbox())).b)
    ensures CloseInv(c.WithOutbox(Shutdown(c.Outbox())).b)
  {
    assert Advance(c.Outbox()).q.txOpen == c.b.q.txOpen;
  }

  lemma StepKeepsClose(c: Client, e: Event)
    requires CloseInv(c.b)
    ensures CloseInv(Step(c, e).b)
  {
    match e
    case WriterActs => WriterKeepsClose(c);
    case ShutDown => WriterKeepsClose(c);
    case LoopActs(refused) => LoopStepKeepsClose(c.b, refused);
    case LoopEnters(mode) =>
      if c.b.pc.Idle? {
        AfterKeepsClose(c.b);
      }
    case Stream(ev) =>
      if c.b.pc.Idle? {
        StreamKeepsClose(c.b, ev);
      }
    case _ =>
  }

  // ----- Waking -----

  lemma FillKeepsWake(c: Client)
    requires WakeInv(c) && c.b.pc.FillPeek?
    ensures WakeInv(c.(b := FillStep(c.b)))
  {
  }

  lemma DrainKeepsWake(c: Client)
    requires WakeInv(c) && c.b.pc.Drain?
    ensures WakeInv(c.(b := DrainStep(c.b)))
  {
  }

  lemma AddKeepsWake(c: Client, refused: bool)
    requires WakeInv(c)
    ensures c.b.pc.AddPeeked? ==> WakeInv(c.(b := AddPeekedStep(c.b, refused)))
    ensures c.b.pc.AddDrained? ==> WakeInv(c.(b := AddDrainedStep(c.b, refused)))
  {
  }

  lemma TokenKeepsWake(c: Client, refused: bool)
    requires WakeInv(c) && (c.b.pc.FirstWake? || c.b.pc.LastWake?)
    ensures WakeInv(c.(b := LoopStep(c.b, refused)))
  {
  }

  lemma LoopStepKeepsWake(c: Client, refused: bool)
    requires WakeInv(c)
    ensures WakeInv(c.(b := LoopStep(c.b, refused)))
  {
    match c.b.pc
    case FillPeek => FillKeepsWake(c);
    case AddPeeked(_) => AddKeepsWake(c, refused);
    case FirstWake => TokenKeepsWake(c, refused);
    case Drain => DrainKeepsWake(c);
    case AddDrained(_) => AddKeepsWake(c, refused);
    case LastWake => TokenKeepsWake(c, refused);
    case _ =>
  }

  lemma WriterKeepsWake(c: Client)
    requires WakeInv(c)
    ensures WakeInv(c.WithOutbox(Advance(c.Outbox())))
  {
    match c.sd.pc
    case Trying(_) =>
    case SawFull =>
    case Out =>
  }

  lemma CallbackKeepsWake(c: Client, mode: int)
    requires WakeInv(c) && c.b.pc.Idle?
    ensures WakeInv(c.(b := StartCallback(c.b, mode)))
  {
  }

  lemma StreamKeepsWake(c: Client, ev: StreamEvent)
    requires WakeInv(c)
    ensures WakeInv(c.(b := OnStream(c.b, ev)))
  {
  }

  lemma StepKeepsWake(c: Client, e: Event)
    requires WakeInv(c)
    ensures WakeInv(Step(c, e))
  {
    match e
    case WriterActs => WriterKeepsWake(c);
    case ShutDown =>
    case LoopActs(refused) => LoopStepKeepsWake(c, refused);
    case LoopEnters(mode) =>
      if c.b.pc.Idle? {
        CallbackKeepsWake(c, mode);
      }
    case Stream(ev) =>
      if c.b.pc.Idle? {
        StreamKeepsWake(c, ev);
      }
    case Write(_) =>
    case DropSendHalf =>
    case DropRecvHalf =>
    case ReaderTakes =>
    case LoopExits =>
  }

  // ----- Runs -----

  lemma StepKeepsInv(c: Client, e: Event)
    requires Inv(c)
    ensures Inv(Step(c, e))
  {
    StepKeepsFifo(c, e);
    StepKeepsClose(c, e);
    StepKeepsWake(c, e);
    SenderStepsKeepInv(c.Outbox(), if e.Write? then e.buf else []);
  }

  lemma {:induction false} RunsKeepInv(c: Client, es: seq<Event>)
    requires Inv(c)
    ensures Inv(Exec(c, es))
  {
    if es == [] {
    } else {
      RunsKeepInv(c, es[..|es| - 1]);
      StepKeepsInv(Exec(c, es[..|es| - 1]), es[|es| - 1]);
    }
  }

  lemma StartIsGood(recvCap: nat, sendCap: nat, wakeCap: nat)
    requires 0 < wakeCap
    ensures Inv(Start(recvCap, sendCap, wakeCap))
  {
  }
}
