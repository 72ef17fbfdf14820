/** The client side of the bridge: the context picoquic's packet loop calls back into. One loop callback is a
    sequence of atomic actions on the shared queues; `LoopStep` is one of them and `RunToIdle` a whole callback. */
module ClientBridge {
  import opened Chunks
  import opened Channels
  import opened PacketLoop
  import opened SendHalf
  import LittleEndian

  const CLOSE_WAIT_LIMIT: nat := 5000

  /** Where the loop thread is: between callbacks (`Idle`), inside one, told to end, or gone with its context. */
  datatype LoopPc =
    | Idle
    | FillPeek                 // TIME_CHECK: about to look at the send queue
    | AddPeeked(data: Chunk)   // AFTER_*: the peeked chunk is taken, about to be added to the stream
    | FirstWake
    | Drain                    // about to receive from the send queue
    | AddDrained(data: Chunk)
    | LastWake
    | Terminated               // the callback returned the terminate code
    | Stopped                  // the packet loop returned and the context is freed

  /** The connection and the progress of closing it; `closes` counts the calls of `picoquic_close`. */
  datatype CloseState = CloseState(
    cnx: bool, sid: Option<nat>, disconnected: bool, shouldClose: bool, closeSent: bool, ticks: nat, closes: nat)

  /** `added` lists what picoquic accepted on the stream, `lost` the chunks whose `picoquic_add_to_stream` was refused
      for good, `overtaken` whether a chunk left the queue while an older one was put back; `calls` counts the adds. */
  datatype AddLog = AddLog(added: seq<Chunk>, lost: seq<Chunk>, overtaken: bool, calls: nat) {
    function Accept(data: Chunk): AddLog {
      this.(added := added + [data], calls := calls + 1)
    }

    function Lose(data: Chunk): AddLog {
      this.(lost := lost + [data], calls := calls + 1)
    }

    function PutBack(): AddLog {
      this.(calls := calls + 1)
    }
  }

  /** The context with its ends of the three queues. */
  datatype Bridge = Bridge(
    q: Chan<Chunk>, wake: Chan<Token>, recv: Chan<Chunk>, cl: CloseState, peek: Option<Chunk>, pc: LoopPc, log: AddLog)
  {
    /** The chunk the loop thread holds in its hand. */
    function Hand(): Option<Chunk> {
      if pc.AddPeeked? || pc.AddDrained? then Some(pc.data) else None
    }

    /** Everything that left the writer and is not yet on the stream, oldest first. */
    function InFlight(): seq<Chunk> {
      Opt(Hand()) + Opt(peek) + q.items
    }

    /** What reached the stream, then what will, in order. */
    function Order(): seq<Chunk> {
      log.added + InFlight()
    }

    /** How often `x` left the writer, wherever it went. */
    function Tally(x: Chunk): nat {
      Count(log.added, x) + Count(log.lost, x) + OptCount(Hand(), x) + OptCount(peek, x) + Count(q.items, x)
    }

    /** No add was refused in a way that loses a chunk or lets one overtake another. */
    predicate AddsInOrder() {
      log.lost == [] && !log.overtaken
    }

    /** A chunk in the hand and one in the slot only meet when the slot's was put back. */
    ghost predicate SlotInv() {
      (pc.AddPeeked? ==> peek.None?) && (pc.AddDrained? && !log.overtaken ==> peek.None?)
    }

    predicate Resting() {
      pc.Idle? || pc.Terminated? || pc.Stopped?
    }

    predicate Open() {
      cl.cnx && cl.sid.Some?
    }
  }

  function NewBridge(recvCap: nat, sendCap: nat, wakeCap: nat): Bridge {
    Bridge(NewChan(sendCap), NewChan(wakeCap), NewChan(recvCap),
           CloseState(false, None, false, false, false, 0, 0), None, Idle, AddLog([], [], false, 0))
  }

  // ----- Stream callbacks -----

  datatype StreamEvent =
    | Ready(id: nat, marked: bool)  // `marked`: picoquic accepted the stream as active
    | StreamData(bytes: Chunk)
    | StreamFin(bytes: Chunk)
    | Close | ApplicationClose | StatelessReset
    | StreamReset | StopSending
    | OtherEvent

  /** Whatever the event, the sending side of the context is left alone. */
  function OnStream(b: Bridge, ev: StreamEvent): (b': Bridge)
    ensures b' == b.(recv := b'.recv,
                     cl := b.cl.(cnx := b'.cl.cnx, sid := b'.cl.sid, disconnected := b'.cl.disconnected))
  {
    match ev
    case Ready(id, marked) => b.(cl := b.cl.(cnx := true, sid := if marked then Some(id) else b.cl.sid))
    case StreamData(bytes) => if bytes == [] then b else b.(recv := b.recv.TrySend(bytes))
    case StreamFin(_) => b.(recv := b.recv.TrySend([]))
    case Close | ApplicationClose | StatelessReset => b.(cl := b.cl.(disconnected := true), recv := b.recv.TrySend([]))
    case StreamReset | StopSending => b.(recv := b.recv.TrySend([]))
    case OtherEvent => b
  }

  // ----- Loop callbacks, one atomic action at a time -----

  /** TIME_CHECK starts by noticing that the application dropped its reading half. */
  function StartTimeCheck(b: Bridge): Bridge {
    b.(cl := b.cl.(shouldClose := b.cl.shouldClose || !b.recv.rxOpen), pc := FillPeek)
  }

  /** AFTER_RECEIVE and AFTER_SEND either work on the close or take the peeked chunk. */
  function StartAfter(b: Bridge): Bridge {
    if b.cl.shouldClose then
      if b.cl.disconnected || !b.cl.cnx then b.(pc := Terminated)
      else
        b.(cl := b.cl.(closes := if b.cl.closeSent then b.cl.closes else b.cl.closes + 1,
                       closeSent := true, ticks := (b.cl.ticks + 1) % LittleEndian.U32),
           pc := if b.cl.ticks > CLOSE_WAIT_LIMIT then Terminated else Idle)
    else if b.Open() && b.peek.Some? then b.(peek := None, pc := AddPeeked(b.peek.value))
    else b
  }

  function StartCallback(b: Bridge, mode: int): Bridge {
    if mode == PACKET_LOOP_TIME_CHECK then StartTimeCheck(b)
    else if IsAfter(mode) then StartAfter(b)
    else b
  }

  function Rank(pc: LoopPc): nat {
    match pc
    case Idle | Terminated | Stopped => 0
    case FillPeek | LastWake => 1
    case Drain => 2
    case AddDrained(_) | FirstWake => 3
    case AddPeeked(_) => 4
  }

  /** A loop action touches nothing but the sending side: the queue, the slot, the wakes, the stream and the close
      request, which it can only raise; it never ends the loop. */
  ghost predicate LoopFrame(b: Bridge, b': Bridge) {
    && b' == b.(q := b'.q, wake := b'.wake, peek := b'.peek, pc := b'.pc, log := b'.log,
                cl := b.cl.(shouldClose := b'.cl.shouldClose))
    && (b'.pc.Terminated? ==> b.pc.Terminated?)
    && (b.cl.shouldClose ==> b'.cl.shouldClose)
  }

  /** Each action uses up queue or comes closer to the end of the callback. */
  ghost predicate Progress(b: Bridge, b': Bridge) {
    |b'.q.items| < |b.q.items| || (b'.q == b.q && Rank(b'.pc) < Rank(b.pc))
  }

  /** TIME_CHECK looks at the send queue if the slot is free. */
  function FillStep(b: Bridge): (b': Bridge)
    requires b.pc.FillPeek?
    ensures LoopFrame(b, b') && Progress(b, b') && b'.wake == b.wake
  {
    if b.Open() && b.peek.None? then
      (match b.q.RecvResult()
       case Got(data) => b.(peek := Some(data), q := b.q.TryRecv(), pc := Idle)
       case Ended => b.(cl := b.cl.(shouldClose := true), pc := Idle)
       case Empty => b.(pc := Idle))
    else b.(pc := Idle)
  }

  /** A refused peeked chunk is put back; a refused end marker is forgotten. */
  function AddPeekedStep(b: Bridge, refused: bool): (b': Bridge)
    requires b.pc.AddPeeked?
    ensures LoopFrame(b, b') && Progress(b, b') && b'.wake == b.wake
  {
    if !refused then b.(log := b.log.Accept(b.pc.data), pc := FirstWake)
    else if b.pc.data == [] then b.(log := b.log.Lose([]), pc := FirstWake)
    else b.(log := b.log.PutBack(), peek := Some(b.pc.data), pc := FirstWake)
  }

  function DrainStep(b: Bridge): (b': Bridge)
    requires b.pc.Drain?
    ensures LoopFrame(b, b') && Progress(b, b') && b'.wake == b.wake
  {
    match b.q.RecvResult()
    case Got(data) => b.(q := b.q.TryRecv(), pc := AddDrained(data),
                       log := b.log.(overtaken := b.log.overtaken || b.peek.Some?))
    case Ended => b.(cl := b.cl.(shouldClose := true), pc := LastWake)
    case Empty => b.(pc := LastWake)
  }

  /** A refused drained chunk is dropped and, unless it is an end marker, ends the drain. */
  function AddDrainedStep(b: Bridge, refused: bool): (b': Bridge)
    requires b.pc.AddDrained?
    ensures LoopFrame(b, b') && Progress(b, b') && b'.wake == b.wake
  {
    if !refused then b.(log := b.log.Accept(b.pc.data), pc := Drain)
    else b.(log := b.log.Lose(b.pc.data), pc := if b.pc.data == [] then Drain else LastWake)
  }

  /** The next atomic action of a running callback; `refused` is picoquic's answer if it is an add. */
  function LoopStep(b: Bridge, refused: bool): (b': Bridge)
    ensures LoopFrame(b, b') && (b.Resting() || Progress(b, b'))
  {
    match b.pc
    case FillPeek => FillStep(b)
    case AddPeeked(_) => AddPeekedStep(b, refused)
    case FirstWake => b.(wake := b.wake.TrySend(Token), pc := Drain)
    case Drain => DrainStep(b)
    case AddDrained(_) => AddDrainedStep(b, refused)
    case LastWake => b.(wake := b.wake.TrySend(Token), pc := Idle)
    case Idle | Terminated | Stopped => b
  }

  /** The rest of a callback when nobody else acts; `refuses` answers the adds by their number. */
  function RunToIdle(b: Bridge, refuses: nat -> bool): Bridge
    decreases |b.q.items|, Rank(b.pc)
  {
    if b.Resting() then b else RunToIdle(LoopStep(b, refuses(b.log.calls)), refuses)
  }

  ghost predicate Leads(b: Bridge, refuses: nat -> bool, final: Bridge) {
    RunToIdle(b, refuses) == final
  }

  lemma LeadsStep(b: Bridge, b': Bridge, refuses: nat -> bool, final: Bridge)
    requires Leads(b, refuses, final) && !b.Resting() && b' == LoopStep(b, refuses(b.log.calls))
    ensures Leads(b', refuses, final)
    ensures b'.Resting() ==> b' == final
  {
  }

  // ----- One action keeps every chunk, and keeps the order unless it loses or overtakes -----

  ghost predicate KeepsOrder(b: Bridge, b': Bridge) {
    && b'.SlotInv()
    && (b'.AddsInOrder() ==> b.AddsInOrder() && b'.Order() == b.Order())
  }

  lemma HeadFirst(q: seq<Chunk>)
    requires q != []
    ensures q == [q[0]] + q[1..]
  {
  }

  lemma FillKeepsInFlight(b: Bridge)
    requires b.pc.FillPeek?
    ensures FillStep(b).Order() == b.Order()
  {
    if b.Open() && b.peek.None? && b.q.items != [] {
      HeadFirst(b.q.items);
      assert b.InFlight() == b.q.items;
      assert FillStep(b).InFlight() == [b.q.items[0]] + b.q.items[1..];
    } else {
      assert FillStep(b).InFlight() == b.InFlight();
    }
  }

  lemma FillKeepsOrder(b: Bridge)
    requires b.SlotInv() && b.pc.FillPeek?
    ensures KeepsOrder(b, FillStep(b))
  {
    FillKeepsInFlight(b);
  }

  lemma DrainKeepsOrder(b: Bridge)
    requires b.SlotInv() && b.pc.Drain?
    ensures KeepsOrder(b, DrainStep(b))
  {
    if b.q.items != [] {
      assert b.q.items == [b.q.items[0]] + b.q.items[1..];
    }
    assert b.peek.None? ==> DrainStep(b).InFlight() == b.InFlight();
  }

  lemma AcceptedKeepsOrder(b: Bridge, b': Bridge, data: Chunk)
    requires b.Hand() == Some(data) && b'.Hand() == None && b'.peek == b.peek && b'.q == b.q
    requires b'.log.added == b.log.added + [data]
    ensures b'.Order() == b.Order()
  {
    assert b'.InFlight() == Opt(b.peek) + b.q.items;
    assert b.InFlight() == [data] + (Opt(b.peek) + b.q.items);
  }

  lemma AddPeekedKeepsOrder(b: Bridge, refused: bool)
    requires b.SlotInv() && b.pc.AddPeeked?
    ensures KeepsOrder(b, AddPeekedStep(b, refused))
  {
    var b' := AddPeekedStep(b, refused);
    if !refused {
      AcceptedKeepsOrder(b, b', b.pc.data);
    } else if b.pc.data != [] {
      assert b'.InFlight() == b.InFlight();
    }
  }

  lemma AddDrainedKeepsOrder(b: Bridge, refused: bool)
    requires b.SlotInv() && b.pc.AddDrained?
    ensures KeepsOrder(b, AddDrainedStep(b, refused))
  {
    if !refused {
      AcceptedKeepsOrder(b, AddDrainedStep(b, refused), b.pc.data);
    }
  }

  lemma LoopStepKeepsOrder(b: Bridge, refused: bool)
    requires b.SlotInv()
    ensures KeepsOrder(b, LoopStep(b, refused))
  {
    match b.pc
    case FillPeek => FillKeepsOrder(b);
    case Drain => DrainKeepsOrder(b);
    case AddPeeked(_) => AddPeekedKeepsOrder(b, refused);
    case AddDrained(_) => AddDrainedKeepsOrder(b, refused);
    case _ =>
  }

  lemma FillKeepsTally(b: Bridge, x: Chunk)
    requires b.SlotInv() && b.pc.FillPeek?
    ensures FillStep(b).Tally(x) == b.Tally(x)
  {
  }

  lemma DrainKeepsTally(b: Bridge, x: Chunk)
    requires b.SlotInv() && b.pc.Drain?
    ensures DrainStep(b).Tally(x) == b.Tally(x)
  {
  }

  lemma AddPeekedKeepsTally(b: Bridge, refused: bool, x: Chunk)
    requires b.SlotInv() && b.pc.AddPeeked?
    ensures AddPeekedStep(b, refused).Tally(x) == b.Tally(x)
  {
    if !refused {
      CountSnoc(b.log.added, b.pc.data, x);
    } else if b.pc.data == [] {
      CountSnoc(b.log.lost, [], x);
    }
  }

  lemma AddDrainedKeepsTally(b: Bridge, refused: bool, x: Chunk)
    requires b.SlotInv() && b.pc.AddDrained?
    ensures AddDrainedStep(b, refused).Tally(x) == b.Tally(x)
  {
    if !refused {
      CountSnoc(b.log.added, b.pc.data, x);
    } else {
      CountSnoc(b.log.lost, b.pc.data, x);
    }
  }

  lemma LoopStepKeepsTally(b: Bridge, refused: bool, x: Chunk)
    requires b.SlotInv()
    ensures LoopStep(b, refused).Tally(x) == b.Tally(x)
  {
    match b.pc
    case FillPeek => FillKeepsTally(b, x);
    case Drain => DrainKeepsTally(b, x);
    case AddPeeked(_) => AddPeekedKeepsTally(b, refused, x);
    case AddDrained(_) => AddDrainedKeepsTally(b, refused, x);
    case _ =>
  }

  /** How many chunks the context is responsible for. */
  function Size(b: Bridge): nat {
    |b.log.added| + |b.log.lost| + |Opt(b.Hand())| + |Opt(b.peek)| + |b.q.items|
  }

  lemma SizeOfOrder(b: Bridge)
    ensures Size(b) == |b.Order()| + |b.log.lost|
  {
  }

  ghost predicate SizeKept(b: Bridge, b': Bridge) {
    Size(b') == Size(b) && |b.log.lost| <= |b'.log.lost| && b'.SlotInv()
  }

  lemma FillKeepsSize(b: Bridge)
    requires b.SlotInv() && b.pc.FillPeek?
    ensures SizeKept(b, FillStep(b))
  {
  }

  lemma DrainKeepsSize(b: Bridge)
    requires b.SlotInv() && b.pc.Drain?
    ensures SizeKept(b, DrainStep(b))
  {
  }

  lemma AddKeepsSize(b: Bridge, refused: bool)
    requires b.SlotInv()
    ensures b.pc.AddPeeked? ==> SizeKept(b, AddPeekedStep(b, refused))
    ensures b.pc.AddDrained? ==> SizeKept(b, AddDrainedStep(b, refused))
  {
  }

  lemma LoopStepKeepsSize(b: Bridge, refused: bool)
    requires b.SlotInv()
    ensures SizeKept(b, LoopStep(b, refused))
  {
    match b.pc
    case FillPeek => FillKeepsSize(b);
    case AddPeeked(_) => AddKeepsSize(b, refused);
    case Drain => DrainKeepsSize(b);
    case AddDrained(_) => AddKeepsSize(b, refused);
    case _ =>
  }

  // ----- The context object -----

  /** The part of picoquic the bridge calls: adds to the one stream may be refused. */
  class Picoquic {
    const refuses: nat -> bool
    var calls: nat
    var added: seq<Chunk>
    var closes: nat

    constructor (refuses: nat -> bool)
      ensures this.refuses == refuses && calls == 0 && added == [] && closes == 0
    {
      this.refuses := refuses;
      calls, added, closes := 0, [], 0;
    }

    /** An empty chunk stands for an add of no bytes with the FIN flag. */
    method AddToStream(data: Chunk) returns (ret: int)
      modifies this
      ensures ret != 0 <==> refuses(old(calls))
      ensures calls == old(calls) + 1 && closes == old(closes)
      ensures added == if ret == 0 then old(added) + [data] else old(added)
    {
      ret := if refuses(calls) then -1 else 0;
      added := if ret == 0 then added + [data] else added;
      calls := calls + 1;
    }

    method Close()
      modifies this
      ensures calls == old(calls) && added == old(added) && closes == old(closes) + 1
    {
      closes := closes + 1;
    }
  }

  class ClientBridgeCtx {
    const recvTx: Channel<Chunk>
    const sendRx: Channel<Chunk>
    const wakeTx: Channel<Token>
    const quic: Picoquic
    var cnx: bool
    var streamId: Option<nat>
    var disconnected: bool
    var shouldClose: bool
    var closeSent: bool
    var closeWaitTicks: nat
    var peekBuf: Option<Chunk>
    ghost var lost: seq<Chunk>
    ghost var overtaken: bool

    ghost predicate Valid() {
      recvTx != sendRx && recvTx as object != wakeTx as object && sendRx as object != wakeTx as object
    }

    ghost function View(pc: LoopPc): Bridge
      reads this, recvTx, sendRx, wakeTx, quic
    {
      Bridge(sendRx.st, wakeTx.st, recvTx.st,
             CloseState(cnx, streamId, disconnected, shouldClose, closeSent, closeWaitTicks, quic.closes),
             peekBuf, pc, AddLog(quic.added, lost, overtaken, quic.calls))
    }

    constructor (recvTx: Channel<Chunk>, sendRx: Channel<Chunk>, wakeTx: Channel<Token>, quic: Picoquic)
      requires recvTx != sendRx && recvTx as object != wakeTx as object && sendRx as object != wakeTx as object
      ensures Valid() && this.recvTx == recvTx && this.sendRx == sendRx && this.wakeTx == wakeTx && this.quic == quic
      ensures View(Idle) == Bridge(sendRx.st, wakeTx.st, recvTx.st,
        CloseState(false, None, false, false, false, 0, quic.closes), None, Idle,
        AddLog(quic.added, [], false, quic.calls))
    {
      this.recvTx, this.sendRx, this.wakeTx, this.quic := recvTx, sendRx, wakeTx, quic;
      cnx, streamId, disconnected, shouldClose, closeSent := false, None, false, false, false;
      closeWaitTicks, peekBuf, lost, overtaken := 0, None, [], false;
    }

    method StreamCallback(ev: StreamEvent) returns (ret: int)
      requires Valid()
      modifies this, recvTx
      ensures View(Idle) == OnStream(old(View(Idle)), ev)
      ensures ret == if ev.Ready? && !ev.marked then -1 else 0
    {
      match ev {
        case Ready(id, marked) =>
          cnx := true;
          if !marked {
            return -1;
          }
          streamId := Some(id);
        case StreamData(bytes) =>
          if bytes != [] {
            var _ := recvTx.TrySend(bytes);
          }
        case StreamFin(_) =>
          var _ := recvTx.TrySend([]);
        case Close | ApplicationClose | StatelessReset =>
          disconnected := true;
          var _ := recvTx.TrySend([]);
        case StreamReset | StopSending =>
          var _ := recvTx.TrySend([]);
        case OtherEvent =>
      }
      return 0;
    }

    /** The callback of the packet loop with nobody else acting meanwhile. */
    method LoopCallback(mode: int) returns (ret: int)
      requires Valid()
      modifies this, sendRx, wakeTx, quic
      ensures ret == 0 || ret == 1071
      ensures View(if ret == 0 then Idle else Terminated)
           == RunToIdle(StartCallback(old(View(Idle)), mode), quic.refuses)
    {
      ret := 0;
      if mode == PACKET_LOOP_TIME_CHECK {
        TimeCheck();
      } else if IsAfter(mode) {
        if shouldClose {
          ret := CloseOrWait();
        } else {
          DrainToStream();
        }
      }
    }

    method TimeCheck()
      requires Valid()
      modifies this, sendRx
      ensures View(Idle) == RunToIdle(StartTimeCheck(old(View(Idle))), quic.refuses)
    {
      if !recvTx.st.rxOpen {
        shouldClose := true;
      }
      if cnx && streamId.Some? && peekBuf.None? {
        var got := sendRx.TryRecv();
        match got {
          case Got(data) => peekBuf := Some(data);
          case Ended => shouldClose := true;
          case Empty =>
        }
      }
    }

    method CloseOrWait() returns (ret: int)
      requires Valid() && shouldClose
      modifies this, quic
      ensures ret == 0 || ret == TERMINATE_PACKET_LOOP
      ensures View(if ret == 0 then Idle else Terminated) == StartAfter(old(View(Idle)))
    {
      if disconnected || !cnx {
        return TERMINATE_PACKET_LOOP;
      }
      if !closeSent {
        quic.Close();
        closeSent := true;
      }
      var ticks := closeWaitTicks;
      closeWaitTicks := (closeWaitTicks + 1) % LittleEndian.U32;
      return if ticks > CLOSE_WAIT_LIMIT then TERMINATE_PACKET_LOOP else 0;
    }

    method DrainToStream()
      requires Valid() && !shouldClose
      modifies this, sendRx, wakeTx, quic
      ensures View(Idle) == RunToIdle(StartAfter(old(View(Idle))), quic.refuses)
    {
      if cnx && streamId.Some? {
        var consumed := peekBuf.Some?;
        if consumed {
          ghost var final := RunToIdle(StartAfter(View(Idle)), quic.refuses);
          AddPeekedChunk();
          WakeWriter(FirstWake, final);
          DrainQueue(final);
          WakeWriter(LastWake, final);
        }
      }
    }

    /** Takes the peeked chunk and adds it; a refused one that carries bytes is put back. */
    method AddPeekedChunk()
      requires Valid() && peekBuf.Some?
      modifies this, quic
      ensures View(FirstWake)
           == AddPeekedStep(old(View(Idle)).(peek := None, pc := AddPeeked(old(peekBuf).value)),
                            quic.refuses(old(quic.calls)))
    {
      var data := peekBuf.value;
      peekBuf := None;
      var ret := quic.AddToStream(data);
      if ret != 0 {
        if data == [] {
          lost := lost + [data];
        } else {
          peekBuf := Some(data);
        }
      }
    }

    method WakeWriter(ghost pc: LoopPc, ghost final: Bridge)
      requires Valid() && (pc.FirstWake? || pc.LastWake?)
      requires Leads(View(pc), quic.refuses, final)
      modifies wakeTx
      ensures pc.FirstWake? ==> Leads(View(Drain), quic.refuses, final)
      ensures pc.LastWake? ==> View(Idle) == final
    {
      ghost var b := View(pc);
      var _ := wakeTx.TrySend(Token);
      LeadsStep(b, View(if pc.FirstWake? then Drain else Idle), quic.refuses, final);
    }

    method DrainQueue(ghost final: Bridge)
      requires Valid() && Leads(View(Drain), quic.refuses, final)
      modifies this, sendRx, quic
      ensures Leads(View(LastWake), quic.refuses, final)
    {
      while true
        invariant Leads(View(Drain), quic.refuses, final)
        decreases |sendRx.st.items|
      {
        ghost var b := View(Drain);
        var got := sendRx.TryRecv();
        match got {
          case Got(data) =>
            overtaken := overtaken || peekBuf.Some?;
            LeadsStep(b, View(AddDrained(data)), quic.refuses, final);
            var more := AddDrainedChunk(data, final);
            if !more {
              return;
            }
          case Ended =>
            shouldClose := true;
            LeadsStep(b, View(LastWake), quic.refuses, final);
            return;
          case Empty =>
            LeadsStep(b, View(LastWake), quic.refuses, final);
            return;
        }
      }
    }

    /** Adds a drained chunk; a refused one is dropped and, unless it is an end marker, ends the drain. */
    method AddDrainedChunk(data: Chunk, ghost final: Bridge) returns (more: bool)
      requires Valid() && Leads(View(AddDrained(data)), quic.refuses, final)
      modifies this, quic
      ensures Leads(View(if more then Drain else LastWake), quic.refuses, final)
    {
      ghost var b := View(AddDrained(data));
      var ret := quic.AddToStream(data);
      if ret != 0 {
        lost := lost + [data];
      }
      more := ret == 0 || data == [];
      LeadsStep(b, View(if more then Drain else LastWake), quic.refuses, final);
    }
  }
}
