/** What each callback of the client's packet loop comes to with nobody else acting, mode by mode as picoquic numbers
    them: 2 after a receive, 3 after a send, 5 for the time check. */
module ClientCallbacks {
  import opened Chunks
  import opened ClientBridge
  import opened ClientTheorems

  // ----- The time check -----

  /** A time check requests closing exactly when that was requested before, the reader was dropped, or the bridge is
      open with a free slot and a drained queue whose writer is gone; it takes a chunk exactly when an open bridge has
      a free slot and one is queued; it changes nothing else. */
  lemma TimeCheckExactly(b: Bridge, refuses: nat -> bool)
    requires b.pc.Idle?
    ensures var d := RunToIdle(StartCallback(b, 5), refuses);
      var looks := b.cl.cnx && b.cl.sid.Some? && b.peek.None?;
      && d == b.(peek := d.peek, q := b.q.(items := d.q.items), cl := b.cl.(shouldClose := d.cl.shouldClose))
      && (d.cl.shouldClose <==>
           b.cl.shouldClose || !b.recv.rxOpen || (looks && b.q.items == [] && !b.q.txOpen))
      && (if looks && b.q.items != [] then d.peek == Some(b.q.items[0]) && d.q.items == b.q.items[1..]
          else d.peek == b.peek && d.q.items == b.q.items)
  {
    var b1 := LoopStep(StartTimeCheck(b), refuses(b.log.calls));
    assert RunToIdle(b1, refuses) == b1;
  }

  // ----- After a receive or a send -----

  /** While closing, such a callback ends the loop at once if the peer has disconnected or no connection exists;
      otherwise it closes the connection unless that was done, counts, and ends the loop after more than 5000. */
  lemma ClosingExactly(b: Bridge, mode: int, refuses: nat -> bool)
    requires b.pc.Idle? && b.cl.shouldClose && (mode == 2 || mode == 3)
    ensures var d := RunToIdle(StartCallback(b, mode), refuses);
      if b.cl.disconnected || !b.cl.cnx then d == b.(pc := Terminated)
      else
        && d == b.(pc := d.pc, cl := b.cl.(closes := d.cl.closes, closeSent := true, ticks := d.cl.ticks))
        && d.cl.closes == b.cl.closes + (if b.cl.closeSent then 0 else 1)
        && d.cl.ticks == (b.cl.ticks + 1) % 0x1_0000_0000
        && (if b.cl.ticks > 5000 then d.pc == Terminated else d.pc == Idle)
  {
  }

  /** With no close requested it works exactly on an open bridge with a chunk in the slot. */
  lemma NothingToDo(b: Bridge, mode: int, refuses: nat -> bool)
    requires b.pc.Idle? && (mode == 2 || mode == 3) && !b.cl.shouldClose
    requires !b.cl.cnx || b.cl.sid.None? || b.peek.None?
    ensures RunToIdle(StartCallback(b, mode), refuses) == b
  {
  }

  /** In any other mode nothing happens. */
  lemma OtherModes(b: Bridge, mode: int, refuses: nat -> bool)
    requires b.pc.Idle? && mode != 2 && mode != 3 && mode != 5
    ensures RunToIdle(StartCallback(b, mode), refuses) == b
  {
  }

  /** A stream that is abandoned before there is a connection: one time check and one such callback end the loop. */
  lemma AbandonedConnectEnds(b: Bridge, mode: int, refuses: nat -> bool)
    requires b.pc.Idle? && !b.recv.rxOpen && !b.cl.cnx && (mode == 2 || mode == 3)
    ensures var checked := RunToIdle(StartCallback(b, 5), refuses);
      checked.pc.Idle? && RunToIdle(StartCallback(checked, mode), refuses).pc == Terminated
  {
    TimeCheckExactly(b, refuses);
    ClosingExactly(RunToIdle(StartCallback(b, 5), refuses), mode, refuses);
  }

  // ----- The drain, whatever is refused -----

  /** The chunks whose adds, numbered from `n`, are accepted (or refused). */
  function Sorted(q: seq<Chunk>, refuses: nat -> bool, n: nat, refused: bool): seq<Chunk> {
    if q == [] then []
    else (if refuses(n) == refused then [q[0]] else []) + Sorted(q[1..], refuses, n + 1, refused)
  }

  /** The drain passes over refused end markers and stops at the first refused chunk that carries bytes. */
  ghost predicate StopsAt(q: seq<Chunk>, refuses: nat -> bool, n: nat, k: nat) {
    && k <= |q|
    && (forall j: nat | j < k :: refuses(n + j) ==> q[j] == [])
    && (k < |q| ==> refuses(n + k) && q[k] != [])
  }

  /** What a drain that stops at `k` leaves: the chunks before are on the stream or lost as picoquic answered, the one
      it stops at is lost, the rest is still queued. */
  ghost predicate DrainedTo(b: Bridge, refuses: nat -> bool, k: nat, d: Bridge) {
    var q, n := b.q.items, b.log.calls;
    && k <= |q| && d.pc.Idle? && d.peek == b.peek
    && d.log.added == b.log.added + Sorted(q[..k], refuses, n, false)
    && d.log.lost == b.log.lost + Sorted(q[..k], refuses, n, true) + (if k < |q| then [q[k]] else [])
    && d.q.items == (if k < |q| then q[k + 1..] else [])
    && (d.cl.shouldClose <==> b.cl.shouldClose || (k == |q| && !b.q.txOpen))
  }

  lemma DrainStops(b: Bridge, refuses: nat -> bool)
    requires b.pc.Drain? && b.q.items != [] && refuses(b.log.calls) && b.q.items[0] != []
    ensures DrainedTo(b, refuses, 0, RunToIdle(b, refuses))
  {
    var b1 := DrainStep(b);
    var b2 := AddDrainedStep(b1, true);
    assert RunToIdle(b, refuses) == RunToIdle(b1, refuses) == RunToIdle(b2, refuses);
    assert RunToIdle(b2, refuses) == LoopStep(b2, refuses(b2.log.calls));
    assert b.log.lost + [] + [b.q.items[0]] == b.log.lost + [b.q.items[0]] && b.log.added + [] == b.log.added;
  }

  lemma DrainEmpties(b: Bridge, refuses: nat -> bool)
    requires b.pc.Drain? && b.q.items == []
    ensures DrainedTo(b, refuses, 0, RunToIdle(b, refuses))
  {
    DrainEnds(b, refuses);
    assert b.log.lost + [] + [] == b.log.lost && b.log.added + [] == b.log.added;
  }

  lemma DrainPasses(b: Bridge, refuses: nat -> bool) returns (b': Bridge)
    requires b.pc.Drain? && b.q.items != [] && (refuses(b.log.calls) ==> b.q.items[0] == [])
    ensures RunToIdle(b, refuses) == RunToIdle(b', refuses)
    ensures b'.pc.Drain? && b'.q == b.q.(items := b.q.items[1..]) && b'.peek == b.peek && b'.cl == b.cl
    ensures b'.log.calls == b.log.calls + 1
    ensures b'.log.added == b.log.added + (if refuses(b.log.calls) then [] else [b.q.items[0]])
    ensures b'.log.lost == b.log.lost + (if refuses(b.log.calls) then [b.q.items[0]] else [])
  {
    var b1 := DrainStep(b);
    b' := AddDrainedStep(b1, refuses(b1.log.calls));
    assert RunToIdle(b, refuses) == RunToIdle(b1, refuses) == RunToIdle(b', refuses);
  }

  lemma OnePassed(b: Bridge, b': Bridge, refuses: nat -> bool, k: nat, d: Bridge)
    requires b.q.items != [] && b'.q == b.q.(items := b.q.items[1..]) && b'.peek == b.peek && b'.cl == b.cl
    requires b'.log.calls == b.log.calls + 1
    requires b'.log.added == b.log.added + (if refuses(b.log.calls) then [] else [b.q.items[0]])
    requires b'.log.lost == b.log.lost + (if refuses(b.log.calls) then [b.q.items[0]] else [])
    requires DrainedTo(b', refuses, k, d)
    ensures DrainedTo(b, refuses, k + 1, d)
  {
    var q, n := b.q.items, b.log.calls;
    var kept, gone := if refuses(n) then [] else [q[0]], if refuses(n) then [q[0]] else [];
    assert q[..k + 1][1..] == q[1..][..k] && q[..k + 1][0] == q[0];
    assert Sorted(q[..k + 1], refuses, n, false) == kept + Sorted(q[1..][..k], refuses, n + 1, false);
    assert Sorted(q[..k + 1], refuses, n, true) == gone + Sorted(q[1..][..k], refuses, n + 1, true);
    Assoc(b.log.added, kept, Sorted(q[1..][..k], refuses, n + 1, false));
    Assoc(b.log.lost, gone, Sorted(q[1..][..k], refuses, n + 1, true));
  }

  /** The drain, for every queue and every pattern of refusals. */
  lemma {:induction false} DrainExactly(b: Bridge, refuses: nat -> bool, k: nat)
    requires b.pc.Drain? && StopsAt(b.q.items, refuses, b.log.calls, k)
    ensures DrainedTo(b, refuses, k, RunToIdle(b, refuses))
    decreases |b.q.items|
  {
    if b.q.items == [] {
      DrainEmpties(b, refuses);
    } else if k == 0 {
      DrainStops(b, refuses);
    } else {
      var b' := DrainPasses(b, refuses);
      assert refuses(b.log.calls + 0) ==> b.q.items[0] == [];
      DrainExactly(b', refuses, k - 1);
      OnePassed(b, b', refuses, k - 1, RunToIdle(b, refuses));
    }
  }

  lemma SlotFirst(b: Bridge, refuses: nat -> bool) returns (b': Bridge)
    requires b.pc.Idle? && b.Open() && !b.cl.shouldClose && b.peek.Some?
    ensures RunToIdle(StartAfter(b), refuses) == RunToIdle(b', refuses)
    ensures b'.pc.Drain? && b'.q == b.q && b'.cl == b.cl && b'.log.calls == b.log.calls + 1
    ensures var p, refused := b.peek.value, refuses(b.log.calls);
      && b'.peek == (if refused && p != [] then Some(p) else None)
      && b'.log.added == b.log.added + (if refused then [] else [p])
      && b'.log.lost == b.log.lost + (if refused && p == [] then [p] else [])
  {
    var b2 := StartAfter(b);
    var b3 := LoopStep(b2, refuses(b2.log.calls));
    b' := LoopStep(b3, refuses(b3.log.calls));
  }

  /** A callback that works, for every queue and every pattern of refusals: the chunk in the slot goes to the stream,
      back to the slot when refused, or is lost when a refused end marker; then the drain. */
  lemma AfterExactly(b: Bridge, mode: int, refuses: nat -> bool, k: nat)
    requires b.pc.Idle? && (mode == 2 || mode == 3) && !b.cl.shouldClose
    requires b.cl.cnx && b.cl.sid.Some? && b.peek.Some? && StopsAt(b.q.items, refuses, b.log.calls + 1, k)
    ensures var d, p, q, refused :=
        RunToIdle(StartCallback(b, mode), refuses), b.peek.value, b.q.items, refuses(b.log.calls);
      && d.pc.Idle? && d.peek == (if refused && p != [] then Some(p) else None)
      && d.log.added ==
           b.log.added + (if refused then [] else [p]) + Sorted(q[..k], refuses, b.log.calls + 1, false)
      && d.log.lost ==
           b.log.lost + (if refused && p == [] then [p] else []) + Sorted(q[..k], refuses, b.log.calls + 1, true)
             + (if k < |q| then [q[k]] else [])
      && d.q.items == (if k < |q| then q[k + 1..] else [])
      && (d.cl.shouldClose <==> k == |q| && !b.q.txOpen)
  {
    var b' := SlotFirst(b, refuses);
    DrainExactly(b', refuses, k);
  }

  /** How many wakes the rest of a callback gives. */
  function WakesLeft(pc: LoopPc): nat {
    match pc
    case AddPeeked(_) | FirstWake => 2
    case Drain | AddDrained(_) | LastWake => 1
    case _ => 0
  }

  lemma WakesInOne(b: Bridge, refused: bool)
    requires b.wake.rxOpen && |b.wake.items| <= b.wake.cap
    ensures var b' := LoopStep(b, refused);
      && b'.wake.rxOpen && |b'.wake.items| <= b'.wake.cap == b.wake.cap
      && Min(|b'.wake.items| + WakesLeft(b'.pc), b.wake.cap) == Min(|b.wake.items| + WakesLeft(b.pc), b.wake.cap)
  {
    match b.pc
    case AddPeeked(_) => assert AddPeekedStep(b, refused).pc == FirstWake;
    case Drain =>
    case AddDrained(_) =>
    case _ =>
  }

  lemma {:induction false} WakesGiven(b: Bridge, refuses: nat -> bool)
    requires b.wake.rxOpen && |b.wake.items| <= b.wake.cap
    ensures var d := RunToIdle(b, refuses);
      |d.wake.items| == Min(|b.wake.items| + WakesLeft(b.pc), b.wake.cap)
    decreases |b.q.items|, Rank(b.pc)
  {
    if b.Resting() {
    } else {
      WakesInOne(b, refuses(b.log.calls));
      WakesGiven(LoopStep(b, refuses(b.log.calls)), refuses);
    }
  }

  /** A callback that works gives a listening writer two tokens, as far as they fit. */
  lemma TwoWakes(b: Bridge, mode: int, refuses: nat -> bool)
    requires b.pc.Idle? && (mode == 2 || mode == 3) && !b.cl.shouldClose
    requires b.cl.cnx && b.cl.sid.Some? && b.peek.Some? && b.wake.rxOpen && |b.wake.items| <= b.wake.cap
    ensures |RunToIdle(StartCallback(b, mode), refuses).wake.items| == Min(|b.wake.items| + 2, b.wake.cap)
  {
    WakesGiven(StartCallback(b, mode), refuses);
  }

  /** The first of them comes before anything is taken from the queue, whoever acts in between. */
  lemma FirstWakeComesFirst(b: Bridge, refused: bool, other: Bridge, refused': bool)
    requires b.pc.AddPeeked? && other.pc == LoopStep(b, refused).pc
    requires other.wake.rxOpen && 0 < other.wake.cap
    ensures var d := LoopStep(other, refused');
      LoopStep(b, refused).q == b.q && d.q == other.q && d.wake.items != [] && d.pc == Drain
  {
  }
}
