/** What the client bridge promises over whole runs, and what one sequential callback achieves. */
module ClientTheorems {
  import opened Chunks
  import opened SendHalf
  import opened ClientBridge
  import opened ClientProtocol

  // ----- Safety over all interleavings -----

  /** Hand, slot and queue refine one FIFO: in every reachable state the chunks on the stream, then those in
      flight, are the enqueued ones in order, end markers in place, as long as no add was refused in a harmful way;
      in any case each chunk is accounted for as often as it was enqueued. */
  lemma FifoRefinement(recvCap: nat, sendCap: nat, wakeCap: nat, es: seq<Event>)
    requires 0 < wakeCap
    ensures var c := Exec(Start(recvCap, sendCap, wakeCap), es);
      && (c.b.AddsInOrder() ==> c.sd.enqueued == c.b.log.added + c.b.InFlight())
      && forall x :: Count(c.sd.enqueued, x) == c.b.Tally(x)
  {
    StartIsGood(recvCap, sendCap, wakeCap);
    RunsKeepInv(Start(recvCap, sendCap, wakeCap), es);
  }

  /** Exactly-once writes over runs: while every call extends the chunk held from before, the slices acknowledged
      to the application are the enqueued chunks, one for one. */
  lemma AcknowledgedIsEnqueued(recvCap: nat, sendCap: nat, wakeCap: nat, es: seq<Event>)
    requires 0 < wakeCap
    ensures var c := Exec(Start(recvCap, sendCap, wakeCap), es);
      !c.sd.misused ==> c.sd.acked == c.sd.enqueued
  {
    StartIsGood(recvCap, sendCap, wakeCap);
    RunsKeepInv(Start(recvCap, sendCap, wakeCap), es);
  }

  /** Safety of closing: it starts only after the application dropped a half, is never undone, closes at most once
      and only an existing connection, and no add to the stream is so much as tried from then on. */
  lemma CloseSafety(recvCap: nat, sendCap: nat, wakeCap: nat, es: seq<Event>, more: seq<Event>)
    requires 0 < wakeCap
    ensures var c := Exec(Start(recvCap, sendCap, wakeCap), es);
      var d := Exec(c, more);
      && (c.b.cl.sid.Some? ==> c.b.cl.cnx)
      && (c.b.cl.shouldClose ==> !c.StreamHeld())
      && c.b.cl.closes <= 1
      && (c.b.cl.closes == 1 ==> c.b.cl.cnx && c.b.cl.shouldClose)
      && (c.b.cl.shouldClose ==> d.b.cl.shouldClose && d.b.log == c.b.log && d.b.cl.closes <= 1)
  {
    StartIsGood(recvCap, sendCap, wakeCap);
    var c := Exec(Start(recvCap, sendCap, wakeCap), es);
    RunsKeepInv(Start(recvCap, sendCap, wakeCap), es);
    RunsKeepInv(c, more);
    if c.b.cl.shouldClose {
      ClosingIsFinal(c, more);
    }
  }

  lemma ClosingStep(c: Client, e: Event)
    requires Inv(c) && c.b.cl.shouldClose
    ensures Step(c, e).b.cl.shouldClose && Step(c, e).b.log == c.b.log
  {
    match e
    case LoopActs(refused) =>
    case LoopEnters(mode) =>
    case _ =>
  }

  lemma {:induction false} ClosingIsFinal(c: Client, es: seq<Event>)
    requires Inv(c) && c.b.cl.shouldClose
    ensures Exec(c, es).b.cl.shouldClose && Exec(c, es).b.log == c.b.log
  {
    if es == [] {
    } else {
      ClosingIsFinal(c, es[..|es| - 1]);
      RunsKeepInv(c, es[..|es| - 1]);
      ClosingStep(Exec(c, es[..|es| - 1]), es[|es| - 1]);
    }
  }

  lemma EnqueuedOnlyGrows(c: Client, e: Event)
    ensures c.sd.enqueued <= Step(c, e).sd.enqueued
  {
    match e
    case WriterActs =>
    case ShutDown =>
    case _ =>
  }

  lemma {:induction false} EnqueuedGrows(c: Client, es: seq<Event>)
    ensures c.sd.enqueued <= Exec(c, es).sd.enqueued
  {
    if es == [] {
    } else {
      EnqueuedGrows(c, es[..|es| - 1]);
      EnqueuedOnlyGrows(Exec(c, es[..|es| - 1]), es[|es| - 1]);
    }
  }

  /** However a run goes on once closing has started, everything enqueued is on the stream exactly when nothing was
      in flight or out of order at that moment and nothing was enqueued since: chunks still queued or peeked are never
      sent. */
  lemma ClosingDiscardsExactly(c: Client, es: seq<Event>)
    requires Inv(c) && c.b.cl.shouldClose
    ensures var d := Exec(c, es);
      d.sd.enqueued == d.b.log.added <==>
        c.sd.enqueued == c.b.Order() && c.b.InFlight() == [] && d.sd.enqueued == c.sd.enqueued
  {
    RunsKeepInv(c, es);
    ClosingIsFinal(c, es);
    EnqueuedGrows(c, es);
    SizeOfOrder(c.b);
    assert |c.b.Order()| == |c.b.log.added| + |c.b.InFlight()|;
    if c.b.InFlight() == [] {
      assert c.b.Order() == c.b.log.added;
    }
  }

  // ----- Bounded shutdown -----

  /** How many AFTER_* callbacks the loop got in the run. */
  function Afters(c: Client, es: seq<Event>): nat {
    if es == [] then 0
    else
      var e := es[|es| - 1];
      Afters(c, es[..|es| - 1]) +
      if e.LoopEnters? && (e.mode == 2 || e.mode == 3)
         && Exec(c, es[..|es| - 1]).b.pc.Idle? then 1 else 0
  }

  /** An AFTER_* callback tells the loop to end exactly when closing was requested and the peer has disconnected, or
      no connection exists, or this is the 5002nd wait; nothing else ever ends it. */
  lemma TerminatesExactly(c: Client, e: Event)
    requires Inv(c) && !c.b.pc.Terminated?
    ensures Step(c, e).b.pc.Terminated? <==>
      && c.b.pc.Idle? && e.LoopEnters? && (e.mode == 2 || e.mode == 3)
      && c.b.cl.shouldClose && (c.b.cl.disconnected || !c.b.cl.cnx || c.b.cl.ticks == 5001)
  {
  }

  lemma CountsTheWait(c: Client, e: Event)
    requires Inv(c) && c.b.cl.shouldClose && !Over(c.b.pc)
    ensures var c' := Step(c, e);
      Over(c'.b.pc) || c'.b.cl.ticks == c.b.cl.ticks + Afters(c, [e])
  {
    assert [e][..0] == [] && Exec(c, []) == c;
  }

  lemma OverIsFinal(c: Client, e: Event)
    requires Over(c.b.pc)
    ensures Over(Step(c, e).b.pc)
  {
  }

  /** Once closing is requested the loop ends no later than its 5002nd AFTER_* callback, and its 32-bit tick
      counter never wraps. */
  lemma {:induction false} BoundedShutdown(c: Client, es: seq<Event>)
    requires Inv(c) && c.b.cl.shouldClose && !Over(c.b.pc)
    ensures var d := Exec(c, es);
      && d.b.cl.ticks <= 5002
      && (Over(d.b.pc) || d.b.cl.ticks == c.b.cl.ticks + Afters(c, es))
      && (Afters(c, es) >= 5002 ==> Over(d.b.pc))
  {
    RunsKeepInv(c, es);
    if es == [] {
    } else {
      var front, e := es[..|es| - 1], es[|es| - 1];
      BoundedShutdown(c, front);
      RunsKeepInv(c, front);
      ClosingIsFinal(c, front);
      var d := Exec(c, front);
      if Over(d.b.pc) {
        OverIsFinal(d, e);
      } else {
        CountsTheWait(d, e);
        assert [e][..0] == [] && Exec(d, []) == d;
      }
    }
  }

  // ----- Waking -----

  /** No lost wake-up: while the application holds the stream and the loop has not ended, a writer that waits for a
      token, or is about to, and finds none, faces a full queue or a wake the loop still owes; and no close is
      under way that could cancel it. */
  lemma NoLostWakeup(recvCap: nat, sendCap: nat, wakeCap: nat, es: seq<Event>)
    requires 0 < wakeCap
    ensures var c := Exec(Start(recvCap, sendCap, wakeCap), es);
      c.StreamHeld() && !c.b.pc.Stopped? && AwaitsToken(c.sd) && c.b.wake.items == [] ==>
        && (|c.b.q.items| >= c.b.q.cap || WakeOwed(c.b))
        && !c.b.cl.shouldClose && !c.b.pc.Terminated?
  {
    StartIsGood(recvCap, sendCap, wakeCap);
    RunsKeepInv(Start(recvCap, sendCap, wakeCap), es);
  }

  lemma LoopStepKeepsTokens(b: Bridge, refused: bool)
    requires b.wake.items != [] || ((b.pc.AddPeeked? || b.pc.FirstWake?) && b.wake.rxOpen && 0 < b.wake.cap)
    ensures var b' := LoopStep(b, refused);
      b'.wake.items != [] || ((b'.pc.AddPeeked? || b'.pc.FirstWake?) && b'.wake.rxOpen && 0 < b'.wake.cap)
  {
    match b.pc
    case AddPeeked(_) => assert AddPeekedStep(b, refused).pc == FirstWake;
    case _ =>
  }

  lemma {:induction false} CallbackLeavesToken(b: Bridge, refuses: nat -> bool)
    requires b.wake.items != [] || ((b.pc.AddPeeked? || b.pc.FirstWake?) && b.wake.rxOpen && 0 < b.wake.cap)
    ensures RunToIdle(b, refuses).wake.items != []
    decreases |b.q.items|, Rank(b.pc)
  {
    if !b.Resting() {
      LoopStepKeepsTokens(b, refuses(b.log.calls));
      CallbackLeavesToken(LoopStep(b, refuses(b.log.calls)), refuses);
    }
  }

  /** The owed wake comes: from any reachable resting state of an open bridge, one TIME_CHECK and one AFTER_* give
      the waiting writer a token, whatever picoquic answers to the adds. */
  lemma WaitingWriterIsWoken(c: Client, mode: int, refuses: nat -> bool)
    requires Inv(c) && c.StreamHeld() && c.b.pc.Idle? && c.b.Open() && 0 < c.b.q.cap
    requires AwaitsToken(c.sd)
    requires mode == 2 || mode == 3
    ensures var b1 := RunToIdle(StartCallback(c.b, 5), refuses);
      RunToIdle(StartCallback(b1, mode), refuses).wake.items != []
  {
    var b0 := StartTimeCheck(c.b);
    var b1 := LoopStep(b0, refuses(b0.log.calls));
    assert b1.pc.Idle? && (b1.peek.Some? || b1.wake.items != []);
    assert RunToIdle(b1, refuses) == b1;
    var b2 := StartAfter(b1);
    CallbackLeavesToken(b2, refuses);
  }

  // ----- One callback with nobody else acting -----

  /** A callback of the context object is the run that lets the loop act until it rests. */
  lemma {:induction false} RunToIdleIsARun(c: Client, refuses: nat -> bool) returns (es: seq<Event>)
    ensures Exec(c, es) == c.(b := RunToIdle(c.b, refuses))
    decreases |c.b.q.items|, Rank(c.b.pc)
  {
    if c.b.Resting() {
      es := [];
    } else {
      var c' := c.(b := LoopStep(c.b, refuses(c.b.log.calls)));
      var rest := RunToIdleIsARun(c', refuses);
      es := [LoopActs(refuses(c.b.log.calls))] + rest;
      ExecCons(c, LoopActs(refuses(c.b.log.calls)), rest);
    }
  }

  lemma {:induction false} ExecCons(c: Client, e: Event, es: seq<Event>)
    ensures Exec(c, [e] + es) == Exec(Step(c, e), es)
  {
    var s := [e] + es;
    if es == [] {
      assert s[..0] == [] && Exec(c, []) == c;
    } else {
      var n := |es| - 1;
      assert s[..|es|] == [e] + es[..n] && s[|es|] == es[n];
      ExecCons(c, e, es[..n]);
      assert Exec(c, s) == Step(Exec(c, s[..|es|]), es[n]);
    }
  }

  lemma CallbackIsARun(c: Client, mode: int, refuses: nat -> bool) returns (es: seq<Event>)
    requires c.b.pc.Idle?
    ensures Exec(c, es) == c.(b := RunToIdle(StartCallback(c.b, mode), refuses))
  {
    var c' := Step(c, LoopEnters(mode));
    var rest := RunToIdleIsARun(c', refuses);
    es := [LoopEnters(mode)] + rest;
    ExecCons(c, LoopEnters(mode), rest);
  }

  /** No add among the next `n` after number `from` is refused. */
  ghost predicate NoneRefused(refuses: nat -> bool, from: nat, n: nat) {
    forall k: nat | from <= k < from + n :: !refuses(k)
  }

  function AfterOne(b: Bridge): Bridge
    requires b.q.items != []
  {
    b.(q := b.q.TryRecv(), log := b.log.(overtaken := b.log.overtaken || b.peek.Some?).Accept(b.q.items[0]))
  }

  /** Two actions of a drain: the oldest queued chunk is taken and accepted. */
  lemma DrainTakesOne(b: Bridge, refuses: nat -> bool)
    requires b.pc.Drain? && b.q.items != [] && !refuses(b.log.calls)
    ensures RunToIdle(b, refuses)
         == RunToIdle(AfterOne(b), refuses)
  {
    var b1 := DrainStep(b);
    assert RunToIdle(b, refuses) == RunToIdle(b1, refuses);
    assert RunToIdle(b1, refuses) == RunToIdle(AddDrainedStep(b1, false), refuses);
  }

  lemma DrainEnds(b: Bridge, refuses: nat -> bool)
    requires b.pc.Drain? && b.q.items == []
    ensures RunToIdle(b, refuses)
         == b.(cl := b.cl.(shouldClose := b.cl.shouldClose || !b.q.txOpen), wake := b.wake.TrySend(Token), pc := Idle)
  {
    var b1 := DrainStep(b);
    assert RunToIdle(b, refuses) == RunToIdle(b1, refuses);
    assert RunToIdle(b1, refuses) == LoopStep(b1, refuses(b1.log.calls));
  }

  lemma {:induction false} DrainTakesAll(b: Bridge, refuses: nat -> bool)
    requires b.pc.Drain? && NoneRefused(refuses, b.log.calls, |b.q.items|)
    ensures var d := RunToIdle(b, refuses);
      && d.log.added == b.log.added + b.q.items && d.q.items == []
      && d.log.lost == b.log.lost && d.peek == b.peek && d.pc.Idle?
      && d.cl.shouldClose == (b.cl.shouldClose || !b.q.txOpen)
    decreases |b.q.items|
  {
    if b.q.items != [] {
      var head := b.q.items[0];
      DrainTakesOne(b, refuses);
      DrainTakesAll(AfterOne(b), refuses);
      assert b.log.added + b.q.items == (b.log.added + [head]) + b.q.items[1..];
    } else {
      DrainEnds(b, refuses);
    }
  }

  /** What TIME_CHECK leaves when something is peeked or queued: the oldest chunk in the slot. */
  lemma TimeCheckFillsSlot(b: Bridge, refuses: nat -> bool) returns (b1: Bridge)
    requires b.pc.Idle? && b.Open() && !b.cl.shouldClose && b.recv.rxOpen && (b.peek.Some? || b.q.items != [])
    ensures b1 == RunToIdle(StartTimeCheck(b), refuses)
    ensures b1 == b.(peek := b1.peek, q := b.q.(items := b1.q.items))
    ensures b1.peek.Some? && [b1.peek.value] + b1.q.items == Opt(b.peek) + b.q.items
  {
    b1 := LoopStep(StartTimeCheck(b), refuses(b.log.calls));
  }

  /** Drain progress: with the stream open and something peeked or queued, one TIME_CHECK and one AFTER_* put every
      chunk on the stream in order, empty slot and queue, and leave the writer a token. */
  lemma DrainProgress(b: Bridge, mode: int, refuses: nat -> bool)
    requires b.pc.Idle? && b.Open() && !b.cl.shouldClose && b.recv.rxOpen && (b.peek.Some? || b.q.items != [])
    requires b.wake.rxOpen && 0 < b.wake.cap
    requires mode == 2 || mode == 3
    requires NoneRefused(refuses, b.log.calls, |Opt(b.peek) + b.q.items|)
    ensures var b1 := RunToIdle(StartCallback(b, 5), refuses);
      var d := RunToIdle(StartCallback(b1, mode), refuses);
      && d.pc.Idle? && d.log.added == b.log.added + (Opt(b.peek) + b.q.items) && d.peek.None? && d.q.items == []
      && d.log.lost == b.log.lost && d.wake.items != [] && (d.cl.shouldClose <==> !b.q.txOpen)
  {
    var b1 := TimeCheckFillsSlot(b, refuses);
    DrainFromSlot(b1, refuses);
    CallbackLeavesToken(StartAfter(b1), refuses);
    assert b1.log.added + [b1.peek.value] + b1.q.items == b1.log.added + ([b1.peek.value] + b1.q.items);
  }

  lemma DrainFromSlot(b: Bridge, refuses: nat -> bool)
    requires b.pc.Idle? && b.Open() && !b.cl.shouldClose && b.peek.Some?
    requires NoneRefused(refuses, b.log.calls, 1 + |b.q.items|)
    ensures var d := RunToIdle(StartAfter(b), refuses);
      && d.pc.Idle? && d.log.added == b.log.added + [b.peek.value] + b.q.items && d.peek.None? && d.q.items == []
      && d.log.lost == b.log.lost && (d.cl.shouldClose <==> !b.q.txOpen)
  {
    var b2 := StartAfter(b);
    var b3 := LoopStep(b2, refuses(b2.log.calls));
    var b4 := LoopStep(b3, refuses(b3.log.calls));
    DrainTakesAll(b4, refuses);
  }

  // ----- Exactly when one AFTER_* callback keeps the order -----

  lemma {:induction false} CallbackKeepsSize(b: Bridge, refuses: nat -> bool)
    requires b.SlotInv()
    ensures var d := RunToIdle(b, refuses); Size(d) == Size(b) && |b.log.lost| <= |d.log.lost|
    decreases |b.q.items|, ClientBridge.Rank(b.pc)
  {
    if !b.Resting() {
      LoopStepKeepsSize(b, refuses(b.log.calls));
      CallbackKeepsSize(LoopStep(b, refuses(b.log.calls)), refuses);
    }
  }

  lemma {:induction false} RefusedDrainLoses(b: Bridge, refuses: nat -> bool)
    requires b.pc.Drain? && !NoneRefused(refuses, b.log.calls, |b.q.items|)
    ensures |RunToIdle(b, refuses).log.lost| > |b.log.lost|
    decreases |b.q.items|
  {
    var b1 := LoopStep(b, refuses(b.log.calls));
    var b2 := LoopStep(b1, refuses(b1.log.calls));
    if refuses(b.log.calls) {
      CallbackKeepsSize(b2, refuses);
    } else {
      RefusedDrainLoses(b2, refuses);
    }
  }

  lemma {:induction false} RotatesExactly(q: seq<Chunk>, p: Chunk)
    ensures q + [p] == [p] + q <==> forall x :: x in q ==> x == p
  {
    if q == [] {
    } else {
      if q + [p] == [p] + q {
        assert (q + [p])[0] == q[0] && (q + [p])[1..] == q[1..] + [p] && ([p] + q)[1..] == q;
        assert q == [p] + q[1..];
        RotatesExactly(q[1..], p);
      } else if forall x :: x in q ==> x == p {
        assert forall i | 0 <= i < |q| :: q[i] in q;
        assert false;
      }
    }
  }

  lemma SwapsExactly(a: seq<Chunk>, q: seq<Chunk>, p: Chunk)
    ensures (a + q) + [p] == a + ([p] + q) <==> forall x :: x in q ==> x == p
  {
    RotatesExactly(q, p);
    var l, r := (a + q) + [p], a + ([p] + q);
    assert l == a + (q + [p]);
    assert l[|a|..] == q + [p] && r[|a|..] == [p] + q;
  }

  /** The drain after a peeked chunk was refused and put back puts the whole queue before it. */
  lemma PutBackKeepsOrderExactly(b: Bridge, refuses: nat -> bool)
    requires b.pc.Drain? && b.peek.Some? && NoneRefused(refuses, b.log.calls, |b.q.items|)
    ensures RunToIdle(b, refuses).Order() == b.Order() <==> forall x :: x in b.q.items ==> x == b.peek.value
  {
    var p, d := b.peek.value, RunToIdle(b, refuses);
    DrainTakesAll(b, refuses);
    assert d.InFlight() == [p] && b.InFlight() == [p] + b.q.items;
    SwapsExactly(b.log.added, b.q.items, p);
  }

  lemma LossBreaksOrder(b: Bridge, d: Bridge)
    requires Size(d) == Size(b) && |d.log.lost| > |b.log.lost|
    ensures d.Order() != b.Order()
  {
    SizeOfOrder(b);
    SizeOfOrder(d);
  }

  lemma CleanDrainKeepsOrder(b: Bridge, refuses: nat -> bool)
    requires b.pc.Idle? && b.Open() && !b.cl.shouldClose && b.peek.Some?
    requires NoneRefused(refuses, b.log.calls, 1 + |b.q.items|)
    ensures RunToIdle(StartAfter(b), refuses).Order() == b.Order()
  {
    DrainFromSlot(b, refuses);
    assert RunToIdle(StartAfter(b), refuses).InFlight() == [];
    assert b.InFlight() == [b.peek.value] + b.q.items;
  }

  /** Where the callback stands after it has dealt with the slot: about to drain. */
  lemma AfterSlot(b: Bridge, refuses: nat -> bool) returns (b': Bridge)
    requires b.pc.Idle? && b.Open() && !b.cl.shouldClose && b.peek.Some?
    ensures RunToIdle(StartAfter(b), refuses) == RunToIdle(b', refuses)
    ensures b'.pc.Drain? && b'.q == b.q && b'.log.calls == b.log.calls + 1 && Size(b') == Size(b)
    ensures refuses(b.log.calls) && b.peek.value != [] ==>
      b'.peek == b.peek && b'.log.added == b.log.added && b'.log.lost == b.log.lost
    ensures refuses(b.log.calls) && b.peek.value == [] ==> |b'.log.lost| > |b.log.lost|
    ensures |b'.log.lost| >= |b.log.lost|
  {
    var b2 := StartAfter(b);
    var b3 := LoopStep(b2, refuses(b2.log.calls));
    b' := LoopStep(b3, refuses(b3.log.calls));
  }

  /** One AFTER_* callback keeps slot and queue in FIFO order exactly when no drained chunk is refused and, if the
      peeked chunk is refused, it is not an end marker and every queued chunk equals it. */
  lemma OrderKeptExactly(b: Bridge, refuses: nat -> bool)
    requires b.pc.Idle? && b.Open() && !b.cl.shouldClose && b.peek.Some?
    ensures RunToIdle(StartAfter(b), refuses).Order() == b.Order() <==>
      && NoneRefused(refuses, b.log.calls + 1, |b.q.items|)
      && (refuses(b.log.calls) ==> b.peek.value != [] && forall x :: x in b.q.items ==> x == b.peek.value)
  {
    var b' := AfterSlot(b, refuses);
    var d := RunToIdle(b', refuses);
    CallbackKeepsSize(b', refuses);
    if !NoneRefused(refuses, b.log.calls + 1, |b.q.items|) {
      RefusedDrainLoses(b', refuses);
      LossBreaksOrder(b, d);
    } else if !refuses(b.log.calls) {
      CleanDrainKeepsOrder(b, refuses);
    } else if b.peek.value == [] {
      LossBreaksOrder(b, d);
    } else {
      assert b'.Order() == b.Order();
      PutBackKeepsOrderExactly(b', refuses);
    }
  }
}
