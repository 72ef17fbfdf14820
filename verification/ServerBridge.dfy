/** The server's context object: the table behind its mutex, with channels shared with the accepted halves. */
module ServerBridge {
  import opened Chunks
  import opened Channels
  import opened PacketLoop
  import opened RecvHalf
  import opened SendHalf
  import opened ServerTable

  datatype ConnState = ConnState(
    cnx: nat, streamId: Option<nat>,
    recvTx: Option<Channel<Chunk>>, sendRx: Option<Channel<Chunk>>, wakeTx: Option<Channel<Token>>)

  /** One call of `picoquic_add_to_stream` and its answer, which the server ignores. */
  datatype AddCall = AddCall(id: nat, data: Chunk, refused: bool)

  class ServerPicoquic {
    /** The answer to a connection's n-th add. */
    const refuses: (nat, nat) -> bool
    var calls: map<nat, seq<AddCall>>

    constructor (refuses: (nat, nat) -> bool)
      ensures this.refuses == refuses && calls == map[]
    {
      this.refuses := refuses;
      calls := map[];
    }

    function Calls(cnx: nat): seq<AddCall>
      reads this
    {
      if cnx in calls then calls[cnx] else []
    }

    method AddToStream(cnx: nat, id: nat, data: Chunk)
      modifies this
      ensures Calls(cnx) == old(Calls(cnx)) + [AddCall(id, data, refuses(cnx, |old(Calls(cnx))|))]
      ensures forall k | k != cnx :: Calls(k) == old(Calls(k))
    {
      calls := calls[cnx := Calls(cnx) + [AddCall(id, data, refuses(cnx, |Calls(cnx)|))]];
    }
  }

  /** The adds a queue turns into, from call number `n` on. */
  function AddsFor(q: seq<Chunk>, id: nat, cnx: nat, n: nat, refuses: (nat, nat) -> bool): (r: seq<AddCall>)
    ensures |r| == |q|
  {
    seq(|q|, i requires 0 <= i < |q| => AddCall(id, q[i], refuses(cnx, n + i)))
  }

  lemma AddsForSnoc(q: seq<Chunk>, i: nat, id: nat, cnx: nat, n: nat, refuses: (nat, nat) -> bool)
    requires i < |q|
    ensures AddsFor(q[..i + 1], id, cnx, n, refuses)
         == AddsFor(q[..i], id, cnx, n, refuses) + [AddCall(id, q[i], refuses(cnx, n + i))]
  {
  }

  /** The first `i` chunks of `q` became `calls`, after those made `before`. */
  ghost predicate Made(
      before: seq<AddCall>, calls: seq<AddCall>, q: seq<Chunk>, i: nat, id: nat, cnx: nat, refuses: (nat, nat) -> bool)
  {
    i <= |q| && calls == before + AddsFor(q[..i], id, cnx, |before|, refuses)
  }

  lemma MadeOne(
      before: seq<AddCall>, calls: seq<AddCall>, q: seq<Chunk>, i: nat, id: nat, cnx: nat, refuses: (nat, nat) -> bool)
    requires Made(before, calls, q, i, id, cnx, refuses) && i < |q|
    ensures Made(before, calls + [AddCall(id, q[i], refuses(cnx, |calls|))], q, i + 1, id, cnx, refuses)
  {
    AddsForSnoc(q, i, id, cnx, |before|, refuses);
  }

  function WakeTimes(w: Chan<Token>, n: nat): Chan<Token> {
    if n == 0 then w else WakeTimes(w, n - 1).TrySend(Token)
  }

  predicate Drains(c: Conn) {
    c.streamId.Some? && c.sendRx.Some? && c.wakeTx.Some?
  }

  /** A bound connection after its whole send queue was drained: one wake per chunk, and the queue appended, in
      order, to the adds made for its own stream. */
  function AfterDrain(link: (Option<Conn>, seq<AddCall>), refuses: (nat, nat) -> bool): (Option<Conn>, seq<AddCall>) {
    if link.0.None? || !Drains(link.0.value) then link
    else
      var c, calls := link.0.value, link.1;
      var q := c.sendRx.value;
      (Some(c.(sendRx := Some(q.(items := [])), wakeTx := Some(WakeTimes(c.wakeTx.value, |q.items|)))),
       calls + AddsFor(q.items, c.streamId.value, c.cnx, |calls|, refuses))
  }

  lemma {:induction false} WakeTimesFills(w: Chan<Token>, n: nat)
    ensures var w' := WakeTimes(w, n);
      && w' == w.(items := w'.items)
      && |w'.items| == if w.rxOpen && |w.items| < w.cap then Min(|w.items| + n, w.cap) else |w.items|
  {
    if n == 0 {
    } else {
      WakeTimesFills(w, n - 1);
    }
  }

  /** What one AFTER_* means for a bound connection: the adds made are its queued chunks, in order and on its own
      stream, the queue is empty, its live writer has one more token for each chunk, as far as they fit, and nothing
      else changes. */
  lemma DrainMeaning(link: (Option<Conn>, seq<AddCall>), refuses: (nat, nat) -> bool)
    requires link.0.Some? && Drains(link.0.value)
    ensures var c, q, link' := link.0.value, link.0.value.sendRx.value, AfterDrain(link, refuses);
      && link'.0.Some? && Drains(link'.0.value) && link'.0.value.sendRx.value.items == []
      && link'.1[..|link.1|] == link.1 && |link'.1| == |link.1| + |q.items|
      && (forall i | 0 <= i < |q.items| ::
           link'.1[|link.1| + i].data == q.items[i] && link'.1[|link.1| + i].id == c.streamId.value)
      && (q.items != [] && c.wakeTx.value.rxOpen && 0 < c.wakeTx.value.cap ==> link'.0.value.wakeTx.value.items != [])
      && (c.wakeTx.value.rxOpen && |c.wakeTx.value.items| <= c.wakeTx.value.cap ==>
           |link'.0.value.wakeTx.value.items| == Min(|c.wakeTx.value.items| + |q.items|, c.wakeTx.value.cap))
      && link'.0.value.recvTx == c.recvTx && link'.0.value.streamId == c.streamId
  {
    WakeTimesFills(link.0.value.wakeTx.value, |link.0.value.sendRx.value.items|);
  }

  function OptSet<T>(o: Option<Channel<T>>): set<object> {
    if o.None? then {} else {o.value}
  }

  function Chans(c: ConnState): set<object> {
    OptSet(c.recvTx) + OptSet(c.sendRx) + OptSet(c.wakeTx)
  }

  ghost predicate WellFormed(c: ConnState, key: nat) {
    && c.cnx == key
    && c.recvTx.Some? == c.streamId.Some? && c.sendRx.Some? == c.streamId.Some? && c.wakeTx.Some? == c.streamId.Some?
    && OptSet(c.recvTx) !! OptSet(c.sendRx) !! OptSet(c.wakeTx)
  }

  ghost function St<T>(o: Option<Channel<T>>): Option<Chan<T>>
    reads OptSet(o)
  {
    if o.None? then None else Some(o.value.st)
  }

  /** A channel end, whatever the channel holds. */
  ghost function Emptied<T>(o: Option<Channel<T>>): Option<Chan<T>> {
    if o.None? then None else Some(NewChan(0))
  }

  ghost function ViewOf(c: ConnState, offered: seq<Chunk>): Conn
    reads Chans(c)
  {
    Conn(c.cnx, c.streamId, St(c.recvTx), St(c.sendRx), St(c.wakeTx), offered)
  }

  ghost function Ends(c: ConnState): (Option<Chan<Chunk>>, Option<Chan<Chunk>>, Option<Chan<Token>>)
    reads Chans(c)
  {
    (St(c.recvTx), St(c.sendRx), St(c.wakeTx))
  }

  /** The channels after the table's ends of them were dropped; nothing queued is lost. */
  function HungUp(e: (Option<Chan<Chunk>>, Option<Chan<Chunk>>, Option<Chan<Token>>))
    : (Option<Chan<Chunk>>, Option<Chan<Chunk>>, Option<Chan<Token>>)
  {
    (if e.0.Some? then Some(e.0.value.(txOpen := false)) else None,
     if e.1.Some? then Some(e.1.value.(rxOpen := false)) else None,
     if e.2.Some? then Some(e.2.value.(txOpen := false)) else None)
  }

  /** The pair holds the other ends of exactly the connection's channels. */
  ghost predicate Joined(pair: (SlipstreamRecvHalf, SlipstreamSendHalf), c: ConnState) {
    Some(pair.0.recvRx) == c.recvTx && Some(pair.1.sendTx) == c.sendRx && Some(pair.1.wakeRx) == c.wakeTx
  }

  /** The pair is new to its channels: they have room for 4096 chunks to read, 512 to write and 512 tokens, with `items`
      to read, nothing written and all ends open. */
  ghost predicate HasQueues(pair: (SlipstreamRecvHalf, SlipstreamSendHalf), items: seq<Chunk>)
    reads pair.0.recvRx, pair.1.sendTx, pair.1.wakeRx
  {
    && pair.0.recvRx.st == Chan(4096, items, true, true)
    && pair.1.sendTx.st == Chan(512, [], true, true)
    && pair.1.wakeRx.st == Chan(512, [], true, true)
  }

  /** Three new channels: one set of ends for the table, the others wrapped in the two halves. */
  method OpenStream(key: nat, id: nat)
    returns (c: ConnState, readHalf: SlipstreamRecvHalf, writeHalf: SlipstreamSendHalf)
    ensures WellFormed(c, key) && fresh(Chans(c)) && fresh(readHalf) && fresh(writeHalf)
    ensures forall offers :: ViewOf(c, offers) == Bind(Conn(key, None, None, None, None, offers), id)
    ensures Joined((readHalf, writeHalf), c)
    ensures readHalf.View() == Reader([], 0) && writeHalf.Valid()
    ensures HasQueues((readHalf, writeHalf), [])
  {
    var recv := new Channel<Chunk>(RECV_CAPACITY);
    var send := new Channel<Chunk>(SEND_CAPACITY);
    var wake := new Channel<Token>(WAKE_CAPACITY);
    readHalf := new SlipstreamRecvHalf(recv);
    writeHalf := new SlipstreamSendHalf(send, wake);
    c := ConnState(key, Some(id), Some(recv), Some(send), Some(wake));
  }

  class ServerGlobalCtx {
    const quic: ServerPicoquic
    var connections: map<nat, ConnState>
    var accepted: seq<(SlipstreamRecvHalf, SlipstreamSendHalf)>
    ghost var offered: map<nat, seq<Chunk>>
    ghost var accepts: seq<nat>
    ghost var history: seq<ServerTable.Event>

    /** The channels of one entry. */
    function ChansAt(key: nat): set<object>
      reads this`connections
    {
      if key in connections then Chans(connections[key]) else {}
    }

    ghost predicate Valid()
      reads this`connections, this`accepted, this`accepts
    {
      && |accepted| == |accepts|
      && (forall k | k in connections :: WellFormed(connections[k], k))
      && (forall k :: this !in ChansAt(k) && quic !in ChansAt(k))
      && (forall k, l | k != l :: ChansAt(k) !! ChansAt(l))
    }

    /** The table's entry for a key, with what its channels hold. */
    ghost function EntryOf(key: nat): Option<Conn>
      reads this`connections, this`offered, ChansAt(key)
    {
      if key in connections then Some(ViewOf(connections[key], if key in offered then offered[key] else []))
      else None
    }

    /** The entry for a key, whatever its channels hold. */
    ghost function ShapeOf(key: nat): Option<Conn>
      reads this`connections, this`offered
    {
      if key !in connections then None
      else
        var c := connections[key];
        Some(Conn(c.cnx, c.streamId, Emptied(c.recvTx), Emptied(c.sendRx), Emptied(c.wakeTx),
                  if key in offered then offered[key] else []))
    }

    lemma ShapesAgree(key: nat)
      requires Valid()
      ensures SameShape(ShapeOf(key), EntryOf(key))
    {
    }

    /** Table and accept queue are those of the callbacks so far. */
    ghost predicate Recorded()
      reads this`connections, this`offered, this`accepts, this`history
    {
      accepts == Accepted(history) && forall k :: SameShape(ShapeOf(k), Entry(history, k))
    }

    /** At any time between callbacks the accept queue got one pair per incarnation that saw stream data, in order,
        and each entry of the table is what the history says: listed while ready, bound to its first stream, offered
        exactly that stream's chunks and end markers. */
    lemma TableAndQueueAreHistory(key: nat)
      requires Valid() && Recorded()
      ensures |accepted| == |PairsDue(history)| && accepts == PairsDue(history)
      ensures RightAbout(ShapeOf(key), history, key)
    {
      AcceptedOncePerIncarnation(history);
      TableIsHistory(history, key);
      SameShapeIsRight(ShapeOf(key), Entry(history, key), history, key);
    }

    constructor (quic: ServerPicoquic)
      ensures Valid() && Recorded() && this.quic == quic && accepted == [] && accepts == [] && history == []
      ensures forall k :: EntryOf(k) == None
    {
      this.quic := quic;
      connections, accepted, offered, accepts, history := map[], [], map[], [], [];
    }

    /** Offers a chunk to a bound connection's reader; a full or dropped channel loses it. */
    method OfferTo(key: nat, chunk: Chunk)
      requires Valid() && key in connections && connections[key].streamId.Some?
      modifies this`offered, connections[key].recvTx.value
      ensures Valid() && EntryOf(key) == Some(Offer(old(EntryOf(key)).value, chunk))
      ensures forall k | k != key :: EntryOf(k) == old(EntryOf(k))
      ensures forall k | k != key :: ShapeOf(k) == old(ShapeOf(k))
    {
      var c := connections[key];
      var _ := c.recvTx.value.TrySend(chunk);
      assert c.recvTx.value in ChansAt(key);
      forall k | k != key ensures EntryOf(k) == old(EntryOf(k)) {
        assert c.recvTx.value !in ChansAt(k);
      }
      offered := offered[key := EntryOf(key).value.offered + [chunk]];
    }

    /** Drops the table's ends of an entry's channels: its reader sees the end once it has drained what is queued, and
        its writer is refused. */
    method HangUp(key: nat)
      requires Valid()
      modifies ChansAt(key)
      ensures Valid() && (key in connections ==> Ends(connections[key]) == HungUp(old(Ends(connections[key]))))
      ensures forall k | k != key :: EntryOf(k) == old(EntryOf(k))
    {
      if key in connections {
        var c := connections[key];
        if c.streamId.Some? {
          c.recvTx.value.DropTx();
          c.sendRx.value.DropRx();
          c.wakeTx.value.DropTx();
        }
        forall k | k != key ensures EntryOf(k) == old(EntryOf(k)) {
          assert ChansAt(k) !! ChansAt(key);
        }
      }
    }

    /** Replaces a connection's state by one whose channels are not in the table. */
    method Put(key: nat, c: ConnState, ghost offers: seq<Chunk>)
      requires Valid() && WellFormed(c, key) && this !in Chans(c) && quic !in Chans(c)
      requires forall k :: ChansAt(k) !! Chans(c)
      modifies this`connections, this`offered
      ensures Valid() && EntryOf(key) == Some(ViewOf(c, offers))
      ensures connections == old(connections)[key := c]
      ensures forall k | k != key :: EntryOf(k) == old(EntryOf(k))
      ensures forall k | k != key :: ShapeOf(k) == old(ShapeOf(k))
    {
      connections := connections[key := c];
      offered := offered[key := offers];
      assert forall k | k != key :: ChansAt(k) == old(ChansAt(k));
    }

    /** One pair was added to `was`, and it is that of connection `key`. */
    ghost predicate Hands(was: seq<(SlipstreamRecvHalf, SlipstreamSendHalf)>, key: nat)
      reads this`connections, this`accepted
    {
      && |accepted| == |was| + 1 && accepted[..|was|] == was
      && key in connections && Joined(accepted[|was|], connections[key])
    }

    /** Sends a bound connection's pair to the accept queue. */
    method HandOut(key: nat, pair: (SlipstreamRecvHalf, SlipstreamSendHalf))
      requires Valid() && key in connections && Joined(pair, connections[key])
      modifies this`accepted, this`accepts
      ensures Valid() && Hands(old(accepted), key) && accepts == old(accepts) + [key]
      ensures forall k :: EntryOf(k) == old(EntryOf(k))
    {
      accepted := accepted + [pair];
      accepts := accepts + [key];
    }

    /** Binds a connection to its first stream: creates the channels and hands both halves to accept. */
    method BindTo(key: nat, id: nat)
      requires Valid() && key in connections && connections[key].streamId.None?
      modifies this`connections, this`accepted, this`offered, this`accepts
      ensures Valid() && EntryOf(key) == Some(Bind(old(EntryOf(key)).value, id))
      ensures key in connections && connections == old(connections)[key := connections[key]]
      ensures forall k | k != key :: EntryOf(k) == old(EntryOf(k))
      ensures forall k | k != key :: ShapeOf(k) == old(ShapeOf(k))
      ensures accepts == old(accepts) + [key] && fresh(Chans(connections[key]))
      ensures Hands(old(accepted), key) && HasQueues(accepted[|old(accepted)|], [])
    {
      var c, readHalf, writeHalf := OpenStream(key, id);
      assert forall k :: EntryOf(k) == old(EntryOf(k));
      Put(key, c, EntryOf(key).value.offered);
      HandOut(key, (readHalf, writeHalf));
    }

    /** Data for a known connection: the first stream binds it; data of any other stream is ignored. */
    method OnData(key: nat, id: nat, bytes: Chunk)
      requires Valid() && key in connections
      modifies this`connections, this`accepted, this`offered, this`accepts, ChansAt(key)
      ensures Valid() && EntryOf(key) == EntryStep(old(EntryOf(key)), StreamData(key, id, bytes))
      ensures forall k | k != key :: EntryOf(k) == old(EntryOf(k))
      ensures forall k | k != key :: ShapeOf(k) == old(ShapeOf(k))
      ensures accepts == old(accepts) + if old(connections[key]).streamId.None? then [key] else []
      ensures if old(connections[key]).streamId.None? then Hands(old(accepted), key) else accepted == old(accepted)
      ensures old(connections[key]).streamId.None? ==>
        HasQueues(accepted[|old(accepted)|], if bytes == [] then [] else [bytes])
    {
      if connections[key].streamId.None? {
        BindTo(key, id);
        if bytes != [] {
          OfferTo(key, bytes);
        }
      } else if connections[key].streamId == Some(id) {
        if bytes != [] {
          OfferTo(key, bytes);
        }
      }
    }

    /** Adds a callback that found the entry `was` to the history. */
    ghost method Record(e: ServerTable.Event, was: Option<Conn>)
      requires Valid() && !e.Traffic? && SameShape(was, Entry(history, e.key)) && EntryOf(e.key) == EntryStep(was, e)
      requires forall k | k != e.key :: SameShape(ShapeOf(k), Entry(history, k))
      requires accepts == Accepted(history) + if Accepts(was, e) then [e.key] else []
      modifies this`history
      ensures Valid() && Recorded() && history == old(history) + [e]
      ensures forall k :: EntryOf(k) == old(EntryOf(k))
    {
      ghost var h := history;
      ShapesAgree(e.key);
      ShapeSteps(was, Entry(h, e.key), e);
      history := h + [e];
      forall k ensures SameShape(ShapeOf(k), Entry(history, k)) {
        HistorySnoc(h, e, k);
      }
      HistorySnoc(h, e, e.key);
    }

    /** The stream callback of picoquic. Whatever happened to the channels since the last one, the table, the offers
        and the accept queue stay those of the callbacks' history. */
    method StreamCallback(e: ServerTable.Event)
      requires Valid() && Recorded() && !e.Traffic?
      modifies this, ChansAt(e.key)
      ensures Valid() && Recorded() && history == old(history) + [e]
      ensures EntryOf(e.key) == EntryStep(old(EntryOf(e.key)), e)
      ensures forall k | k != e.key :: EntryOf(k) == old(EntryOf(k))
      ensures if Accepts(old(EntryOf(e.key)), e) then Hands(old(accepted), e.key) else accepted == old(accepted)
      ensures (e.CnxReady? || e.CnxClose?) && e.key in old(connections) ==>
        Ends(old(connections[e.key])) == HungUp(old(Ends(connections[e.key])))
      ensures Accepts(old(EntryOf(e.key)), e) ==>
        HasQueues(accepted[|old(accepted)|], if e.bytes == [] then [] else [e.bytes])
    {
      ghost var was := EntryOf(e.key);
      ShapesAgree(e.key);
      Dispatch(e);
      Record(e, was);
    }

    method Dispatch(e: ServerTable.Event)
      requires Valid() && !e.Traffic?
      modifies this`connections, this`accepted, this`offered, this`accepts, ChansAt(e.key)
      ensures Valid()
      ensures EntryOf(e.key) == EntryStep(old(EntryOf(e.key)), e)
      ensures forall k | k != e.key :: EntryOf(k) == old(EntryOf(k))
      ensures accepts == old(accepts) + if Accepts(old(EntryOf(e.key)), e) then [e.key] else []
      ensures if Accepts(old(EntryOf(e.key)), e) then Hands(old(accepted), e.key) else accepted == old(accepted)
      ensures (e.CnxReady? || e.CnxClose?) && e.key in old(connections) ==>
        Ends(old(connections[e.key])) == HungUp(old(Ends(connections[e.key])))
      ensures forall k | k != e.key :: ShapeOf(k) == old(ShapeOf(k))
      ensures Accepts(old(EntryOf(e.key)), e) ==>
        HasQueues(accepted[|old(accepted)|], if e.bytes == [] then [] else [e.bytes])
    {
      match e {
        case CnxReady(key) =>
          HangUp(key);
          Put(key, ConnState(key, None, None, None, None), []);
        case StreamData(key, id, bytes) =>
          if key in connections {
            OnData(key, id, bytes);
          }
        case StreamFin(key, id, _) =>
          if key in connections && connections[key].streamId == Some(id) {
            OfferTo(key, []);
          }
        case CnxClose(key) =>
          HangUp(key);
          Remove(key);
        case OtherEvent(_) =>
      }
    }

    method Remove(key: nat)
      requires Valid()
      modifies this`connections
      ensures Valid() && EntryOf(key) == None
      ensures forall k | k != key :: EntryOf(k) == old(EntryOf(k))
      ensures forall k | k != key :: ShapeOf(k) == old(ShapeOf(k))
    {
      connections := connections - {key};
      assert forall k | k != key :: ChansAt(k) == old(ChansAt(k));
    }

    /** Takes one chunk of a send queue, adds it to the stream and wakes the writer; the answers are ignored. */
    method DrainOne(sendRx: Channel<Chunk>, wakeTx: Channel<Token>, cnx: nat, id: nat) returns (took: bool)
      requires sendRx as object != wakeTx as object
      modifies sendRx, wakeTx, quic
      ensures took <==> old(sendRx.st.items) != []
      ensures sendRx.st == old(sendRx.st).TryRecv()
      ensures wakeTx.st == if took then old(wakeTx.st).TrySend(Token) else old(wakeTx.st)
      ensures var calls := old(quic.Calls(cnx));
        quic.Calls(cnx) == calls +
          if took then [AddCall(id, old(sendRx.st.items)[0], quic.refuses(cnx, |calls|))] else []
      ensures forall k | k != cnx :: quic.Calls(k) == old(quic.Calls(k))
    {
      var got := sendRx.TryRecv();
      took := got.Got?;
      if took {
        quic.AddToStream(cnx, id, got.item);
        var _ := wakeTx.TrySend(Token);
      }
    }

    /** Empties a send queue onto a stream. */
    method DrainQueue(sendRx: Channel<Chunk>, wakeTx: Channel<Token>, cnx: nat, id: nat)
      requires sendRx as object != wakeTx as object
      modifies sendRx, wakeTx, quic
      ensures sendRx.st == old(sendRx.st).(items := [])
      ensures wakeTx.st == WakeTimes(old(wakeTx.st), |old(sendRx.st.items)|)
      ensures quic.Calls(cnx)
           == old(quic.Calls(cnx)) + AddsFor(old(sendRx.st.items), id, cnx, |old(quic.Calls(cnx))|, quic.refuses)
      ensures forall k | k != cnx :: quic.Calls(k) == old(quic.Calls(k))
    {
      ghost var q, calls := sendRx.st.items, quic.Calls(cnx);
      ghost var i := 0;
      while true
        invariant i <= |q| && sendRx.st == old(sendRx.st).(items := q[i..]) && wakeTx.st == WakeTimes(old(wakeTx.st), i)
        invariant Made(calls, quic.Calls(cnx), q, i, id, cnx, quic.refuses)
        invariant forall k | k != cnx :: quic.Calls(k) == old(quic.Calls(k))
        decreases |q| - i
      {
        ghost var made := quic.Calls(cnx);
        var took := DrainOne(sendRx, wakeTx, cnx, id);
        if !took {
          break;
        }
        MadeOne(calls, made, q, i, id, cnx, quic.refuses);
        i := i + 1;
      }
      assert q[..i] == q;
    }

    /** An entry with the adds made so far for its connection. */
    ghost function Link(key: nat): (Option<Conn>, seq<AddCall>)
      reads this`connections, this`offered, ChansAt(key), quic
    {
      (EntryOf(key), quic.Calls(key))
    }

    /** Drains one entry, if it is bound. */
    method DrainEntry(key: nat)
      requires Valid()
      modifies ChansAt(key), quic
      ensures Link(key) == AfterDrain(old(Link(key)), quic.refuses)
      ensures forall k | k != key :: Link(k) == old(Link(k))
    {
      if key in connections && connections[key].streamId.Some? {
        var c := connections[key];
        DrainQueue(c.sendRx.value, c.wakeTx.value, c.cnx, c.streamId.value);
        forall k | k != key ensures EntryOf(k) == old(EntryOf(k)) {
          assert ChansAt(k) !! ChansAt(key);
        }
      }
    }

    function Repr(): set<object>
      reads this`connections
    {
      set k, o | k in connections && o in ChansAt(k) :: o
    }

    /** Drains every bound connection, in whatever order the map is walked; each connection's queue goes to its own
        stream, and the outcome does not depend on the order. */
    method DrainAll()
      requires Valid()
      modifies Repr(), quic
      ensures Valid()
      ensures forall k :: Link(k) == AfterDrain(old(Link(k)), quic.refuses)
    {
      var todo := connections.Keys;
      while todo != {}
        invariant forall k :: Link(k) == if k in todo then old(Link(k)) else AfterDrain(old(Link(k)), quic.refuses)
        decreases todo
      {
        var key :| key in todo;
        assert ChansAt(key) <= Repr();
        DrainEntry(key);
        todo := todo - {key};
      }
    }

    /** The loop callback: only AFTER_* does anything to the connections. */
    method LoopCallback(mode: int)
      requires Valid()
      modifies Repr(), quic
      ensures Valid()
      ensures mode == 2 || mode == 3 ==>
        forall k :: Link(k) == AfterDrain(old(Link(k)), quic.refuses)
      ensures mode != 2 && mode != 3 ==>
        forall k :: Link(k) == old(Link(k))
      ensures accepted == old(accepted) && (old(Recorded()) ==> Recorded())
    {
      if IsAfter(mode) {
        DrainAll();
      }
    }
  }
}
