/** The owed wake comes in every interleaving: once a TIME_CHECK and then an AFTER_* have each gone from start to rest,
    a writer that waited all the while has had a token, whatever else happened in between. */
module ClientWaking {
  import opened PacketLoop
  import opened SendHalf
  import opened ClientProtocol

  /** How far a TIME_CHECK and a later AFTER_* have come. */
  datatype Round = NoCheck | InCheck | Checked | InAfter | Done

  /** `c` is the state the event meets. */
  function NextRound(r: Round, c: Client, e: Event): Round {
    var rests := Step(c, e).b.pc.Idle?;
    match r
    case NoCheck => if c.b.pc.Idle? && e == LoopEnters(PACKET_LOOP_TIME_CHECK) then InCheck else NoCheck
    case InCheck => if rests then Checked else InCheck
    case Checked =>
      if c.b.pc.Idle? && e.LoopEnters? && IsAfter(e.mode) then (if rests then Done else InAfter) else Checked
    case InAfter => if rests then Done else InAfter
    case Done => Done
  }

  function RoundOf(c: Client, es: seq<Event>): Round {
    if es == [] then NoCheck
    else NextRound(RoundOf(c, es[..|es| - 1]), Exec(c, es[..|es| - 1]), es[|es| - 1])
  }

  /** The writer waits for a token while the application holds the stream and the loop has not ended. */
  ghost predicate Waits(c: Client) {
    AwaitsToken(c.sd) && c.StreamHeld() && !c.b.pc.Stopped?
  }

  ghost predicate WaitsThroughout(c: Client, es: seq<Event>) {
    forall i: nat | i <= |es| :: Waits(Exec(c, es[..i]))
  }

  ghost predicate NoTokenThroughout(c: Client, es: seq<Event>) {
    forall i: nat | i <= |es| :: Exec(c, es[..i]).b.wake.items == []
  }

  lemma ThroughoutBefore(c: Client, es: seq<Event>, n: nat)
    requires n <= |es| && WaitsThroughout(c, es) && NoTokenThroughout(c, es)
    ensures WaitsThroughout(c, es[..n]) && NoTokenThroughout(c, es[..n])
    ensures Waits(Exec(c, es[..n])) && Exec(c, es[..n]).b.wake.items == []
  {
    assert forall i: nat | i <= n :: es[..n][..i] == es[..i];
  }

  /** While the writer waits in vain, the round is never over: a check leaves a chunk in the slot, and an AFTER_* that
      finds one is not at rest before its first wake. */
  ghost predicate InVain(c: Client, r: Round) {
    && Inv(c) && Waits(c) && c.b.wake.items == [] && c.b.Open() && 0 < c.b.q.cap
    && match r
       case NoCheck => true
       case InCheck => c.b.pc.FillPeek?
       case Checked => (c.b.pc.Idle? || c.b.pc.FillPeek?) && c.b.peek.Some?
       case InAfter => c.b.pc.AddPeeked? || c.b.pc.FirstWake?
       case Done => false
  }

  lemma StaysOpen(c: Client, e: Event)
    requires c.b.Open()
    ensures Step(c, e).b.Open() && Step(c, e).b.q.cap == c.b.q.cap
  {
    match e
    case LoopActs(refused) =>
    case LoopEnters(mode) =>
    case Stream(ev) =>
    case _ =>
  }

  /** An event other than the loop's own leaves the loop and the slot where they are. */
  lemma OthersLeaveLoop(c: Client, e: Event)
    requires !e.LoopActs? && !e.LoopEnters? && !Step(c, e).b.pc.Stopped?
    ensures Step(c, e).b.pc == c.b.pc && Step(c, e).b.peek == c.b.peek
  {
  }

  lemma CheckGoesOn(c: Client, e: Event)
    requires InVain(c, InCheck) && Inv(Step(c, e)) && Waits(Step(c, e)) && Step(c, e).b.wake.items == []
    ensures InVain(Step(c, e), NextRound(InCheck, c, e))
  {
    StaysOpen(c, e);
    if !e.LoopActs? && !e.LoopEnters? {
      OthersLeaveLoop(c, e);
    }
  }

  lemma CheckedGoesOn(c: Client, e: Event)
    requires InVain(c, Checked) && Inv(Step(c, e)) && Waits(Step(c, e)) && Step(c, e).b.wake.items == []
    ensures InVain(Step(c, e), NextRound(Checked, c, e))
  {
    StaysOpen(c, e);
    if !e.LoopActs? && !e.LoopEnters? {
      OthersLeaveLoop(c, e);
    }
  }

  lemma AfterGoesOn(c: Client, e: Event)
    requires InVain(c, InAfter) && Inv(Step(c, e)) && Waits(Step(c, e)) && Step(c, e).b.wake.items == []
    ensures InVain(Step(c, e), NextRound(InAfter, c, e))
  {
    StaysOpen(c, e);
    if !e.LoopActs? && !e.LoopEnters? {
      OthersLeaveLoop(c, e);
    }
  }

  lemma VainGoesOn(c: Client, r: Round, e: Event)
    requires InVain(c, r) && Waits(Step(c, e)) && Step(c, e).b.wake.items == []
    ensures InVain(Step(c, e), NextRound(r, c, e))
  {
    StepKeepsInv(c, e);
    match r
    case NoCheck => StaysOpen(c, e);
    case InCheck => CheckGoesOn(c, e);
    case Checked => CheckedGoesOn(c, e);
    case InAfter => AfterGoesOn(c, e);
  }

  lemma {:induction false} VainRuns(c: Client, es: seq<Event>)
    requires Inv(c) && c.b.Open() && 0 < c.b.q.cap && WaitsThroughout(c, es) && NoTokenThroughout(c, es)
    ensures InVain(Exec(c, es), RoundOf(c, es))
  {
    ThroughoutBefore(c, es, |es|);
    assert es[..|es|] == es;
    if es == [] {
    } else {
      var n := |es| - 1;
      ThroughoutBefore(c, es, n);
      VainRuns(c, es[..n]);
      VainGoesOn(Exec(c, es[..n]), RoundOf(c, es[..n]), es[n]);
    }
  }

  /** From any good state of an open bridge, in any run in which the writer waits throughout: when a TIME_CHECK and then
      an AFTER_* have each gone from start to rest, the writer has had a token. */
  lemma WaitingWriterIsWokenInRuns(c: Client, es: seq<Event>)
    requires Inv(c) && c.b.Open() && 0 < c.b.q.cap && WaitsThroughout(c, es)
    requires RoundOf(c, es) == Done
    ensures exists i: nat | i <= |es| :: Exec(c, es[..i]).b.wake.items != []
  {
    if NoTokenThroughout(c, es) {
      VainRuns(c, es);
      assert false;
    }
  }
}
