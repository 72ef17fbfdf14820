/** Exactly which runs of the client keep slot, queue and stream one FIFO: in every interleaving of the writer and the
    packet loop, and for queues of any capacity. */
module ClientOrder {
  import opened Chunks
  import opened SendHalf
  import opened ClientBridge
  import opened ClientProtocol
  import opened ClientTheorems

  /** A drain takes a chunk different from the one in the slot. */
  predicate Overtakes(c: Client, e: Event) {
    e.LoopActs? && c.b.pc.Drain? && c.b.q.items != [] && c.b.peek.Some? && c.b.peek.value != c.b.q.items[0]
  }

  /** picoquic refuses a drained chunk, or a peeked end marker. */
  predicate Loses(c: Client, e: Event) {
    e.LoopActs? && e.refused && (c.b.pc.AddDrained? || (c.b.pc.AddPeeked? && c.b.pc.data == []))
  }

  predicate Harmless(c: Client, e: Event) {
    !Overtakes(c, e) && !Loses(c, e)
  }

  ghost predicate HarmlessAt(c: Client, es: seq<Event>, i: nat)
    requires i < |es|
  {
    Harmless(Exec(c, es[..i]), es[i])
  }

  ghost predicate AllHarmless(c: Client, es: seq<Event>) {
    forall i: nat | i < |es| :: HarmlessAt(c, es, i)
  }

  lemma AllHarmlessSnoc(c: Client, es: seq<Event>, n: nat)
    requires |es| == n + 1
    ensures AllHarmless(c, es) <==> AllHarmless(c, es[..n]) && Harmless(Exec(c, es[..n]), es[n])
  {
    forall i: nat | i < n ensures HarmlessAt(c, es[..n], i) <==> HarmlessAt(c, es, i) {
      assert es[..n][..i] == es[..i];
    }
    assert HarmlessAt(c, es, n) <==> Harmless(Exec(c, es[..n]), es[n]);
  }

  // ----- While every step is harmless -----

  ghost predicate InOrder(c: Client) {
    c.sd.enqueued == c.b.Order() && c.b.SlotInv()
  }

  lemma HarmlessDrain(b: Bridge)
    requires b.pc.Drain? && (b.q.items != [] && b.peek.Some? ==> b.peek.value == b.q.items[0])
    ensures DrainStep(b).Order() == b.Order()
  {
    var q := b.q.items;
    if q == [] {
      assert DrainStep(b).InFlight() == b.InFlight();
    } else {
      HeadFirst(q);
      assert DrainStep(b).InFlight() == [q[0]] + Opt(b.peek) + q[1..];
      assert b.InFlight() == Opt(b.peek) + ([q[0]] + q[1..]);
      Assoc(Opt(b.peek), [q[0]], q[1..]);
    }
  }

  lemma HarmlessLoopStep(c: Client, refused: bool)
    requires c.b.SlotInv() && Harmless(c, LoopActs(refused))
    ensures LoopStep(c.b, refused).Order() == c.b.Order() && LoopStep(c.b, refused).SlotInv()
  {
    var b, b' := c.b, LoopStep(c.b, refused);
    LoopStepKeepsOrder(b, refused);
    match b.pc
    case Drain => HarmlessDrain(b);
    case AddDrained(data) => AcceptedKeepsOrder(b, b', data);
    case AddPeeked(data) =>
      if refused {
        assert b'.InFlight() == b.InFlight();
      } else {
        AcceptedKeepsOrder(b, b', data);
      }
    case FillPeek => FillKeepsInFlight(b);
    case _ => assert b'.Order() == b.Order();
  }

  /** A step of the application enqueues at most one chunk, at the end. */
  lemma WriterKeepsOrder(c: Client, o: Outbox)
    requires InOrder(c) && (o == Advance(c.Outbox()) || o == Shutdown(c.Outbox()))
    ensures InOrder(c.WithOutbox(o))
  {
    var b' := c.WithOutbox(o).b;
    if o.q != c.b.q {
      var x := o.q.items[|c.b.q.items|];
      assert b'.InFlight() == c.b.InFlight() + [x];
      Assoc(c.b.log.added, c.b.InFlight(), [x]);
    } else {
      assert b'.Order() == c.b.Order();
    }
  }

  lemma HarmlessStepKeepsOrder(c: Client, e: Event)
    requires InOrder(c) && Harmless(c, e)
    ensures InOrder(Step(c, e))
  {
    match e
    case WriterActs => WriterKeepsOrder(c, Advance(c.Outbox()));
    case ShutDown => WriterKeepsOrder(c, Shutdown(c.Outbox()));
    case LoopActs(refused) => HarmlessLoopStep(c, refused);
    case LoopEnters(mode) => assert Step(c, e).b.Order() == c.b.Order();
    case _ =>
      OtherStepsMoveNoChunk(c, e);
      assert Step(c, e).b.Order() == c.b.Order();
  }

  // ----- After a harmful step -----

  /** The chunks added, then the one drained and about to be. */
  function Sent(b: Bridge): seq<Chunk> {
    b.log.added + if b.pc.AddDrained? then [b.pc.data] else []
  }

  ghost predicate DiffersAt(enqueued: seq<Chunk>, sent: seq<Chunk>, k: nat) {
    k < |sent| && k < |enqueued| && sent[k] != enqueued[k]
  }

  /** A chunk is lost for good, or stands on the stream (or next to it) in another's place. */
  ghost predicate Spoilt(c: Client) {
    c.b.log.lost != [] || exists k: nat :: DiffersAt(c.sd.enqueued, Sent(c.b), k)
  }

  lemma SpoiltIsNotInOrder(c: Client)
    requires |c.sd.enqueued| == Size(c.b) && Spoilt(c)
    ensures c.sd.enqueued != c.b.Order()
  {
    SizeOfOrder(c.b);
    if c.b.log.lost == [] {
      var k: nat :| DiffersAt(c.sd.enqueued, Sent(c.b), k);
      assert c.b.Order()[k] == Sent(c.b)[k] by {
        assert c.b.pc.AddDrained? ==> c.b.InFlight()[0] == c.b.pc.data;
      }
    }
  }

  lemma OvertakingSpoils(c: Client, e: Event)
    requires InOrder(c) && Overtakes(c, e)
    ensures Spoilt(Step(c, e))
  {
    var k := |c.b.log.added|;
    assert c.b.InFlight()[0] == c.b.peek.value;
    assert DiffersAt(Step(c, e).sd.enqueued, Sent(Step(c, e).b), k);
  }

  lemma LosingSpoils(c: Client, e: Event)
    requires Loses(c, e)
    ensures Spoilt(Step(c, e))
  {
    assert Step(c, e).b.log.lost != [];
  }

  /** What was sent stays sent in its place unless it is lost. */
  lemma SentOnlyGrows(c: Client, e: Event)
    ensures Step(c, e).b.log.lost != [] || Sent(c.b) <= Sent(Step(c, e).b)
    ensures c.b.log.lost != [] ==> Step(c, e).b.log.lost != []
  {
    match e
    case LoopActs(refused) => LoopSendsOn(c.b, refused);
    case LoopEnters(mode) =>
    case _ =>
  }

  lemma LoopSendsOn(b: Bridge, refused: bool)
    ensures LoopStep(b, refused).log.lost != [] || Sent(b) <= Sent(LoopStep(b, refused))
    ensures b.log.lost != [] ==> LoopStep(b, refused).log.lost != []
  {
    match b.pc
    case AddDrained(_) =>
    case AddPeeked(_) =>
    case Drain =>
    case _ =>
  }

  lemma SpoiltForGood(c: Client, e: Event)
    requires Spoilt(c)
    ensures Spoilt(Step(c, e))
  {
    SentOnlyGrows(c, e);
    EnqueuedOnlyGrows(c, e);
    if c.b.log.lost == [] && Step(c, e).b.log.lost == [] {
      var k: nat :| DiffersAt(c.sd.enqueued, Sent(c.b), k);
      assert DiffersAt(Step(c, e).sd.enqueued, Sent(Step(c, e).b), k);
    }
  }

  // ----- Every run -----

  lemma {:induction false} RunsKeepFifo(c: Client, es: seq<Event>)
    requires FifoInv(c)
    ensures FifoInv(Exec(c, es))
  {
    if es == [] {
    } else {
      RunsKeepFifo(c, es[..|es| - 1]);
      StepKeepsFifo(Exec(c, es[..|es| - 1]), es[|es| - 1]);
    }
  }

  lemma HarmfulStepSpoils(c: Client, e: Event)
    requires InOrder(c) && !Harmless(c, e)
    ensures Spoilt(Step(c, e))
  {
    if Overtakes(c, e) {
      OvertakingSpoils(c, e);
    } else {
      LosingSpoils(c, e);
    }
  }

  lemma {:induction false} RunsAreInOrderOrSpoilt(c: Client, es: seq<Event>)
    requires InOrder(c)
    ensures if AllHarmless(c, es) then InOrder(Exec(c, es)) else Spoilt(Exec(c, es))
  {
    if es == [] {
    } else {
      var n := |es| - 1;
      var d := Exec(c, es[..n]);
      RunsAreInOrderOrSpoilt(c, es[..n]);
      AllHarmlessSnoc(c, es, n);
      if !AllHarmless(c, es[..n]) {
        SpoiltForGood(d, es[n]);
      } else if Harmless(d, es[n]) {
        HarmlessStepKeepsOrder(d, es[n]);
      } else {
        HarmfulStepSpoils(d, es[n]);
      }
    }
  }

  /** Over every run the stream, the hand, the slot and the queue are what was enqueued, in order, exactly when no
      drain took a chunk different from one in the slot and picoquic refused no drained chunk and no peeked end
      marker. */
  lemma FifoExactly(recvCap: nat, sendCap: nat, wakeCap: nat, es: seq<Event>)
    ensures var s := Start(recvCap, sendCap, wakeCap);
      Exec(s, es).sd.enqueued == Exec(s, es).b.log.added + Exec(s, es).b.InFlight() <==> AllHarmless(s, es)
  {
    var s := Start(recvCap, sendCap, wakeCap);
    RunsKeepFifo(s, es);
    RunsAreInOrderOrSpoilt(s, es);
    if !AllHarmless(s, es) {
      SpoiltIsNotInOrder(Exec(s, es));
    }
  }
}
