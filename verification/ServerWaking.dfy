/** The server's owed wake in every interleaving: once an AFTER_* has gone from start to rest for a connection, a writer
    that waited all the while has had a token. */
module ServerWaking {
  import opened SendHalf
  import opened ServerLink

  /** How far an AFTER_* has come. */
  datatype Round = NotEntered | InAfter | Done

  function NextRound(r: Round, l: Link, e: Event): Round {
    match r
    case NotEntered => if l.pc.Resting? && e.LoopEnters? && !l.removed then InAfter else NotEntered
    case InAfter => if Step(l, e).pc.Resting? then Done else InAfter
    case Done => Done
  }

  function RoundOf(l: Link, es: seq<Event>): Round {
    if es == [] then NotEntered
    else NextRound(RoundOf(l, es[..|es| - 1]), Exec(l, es[..|es| - 1]), es[|es| - 1])
  }

  /** The writer of a live connection waits for a token. */
  ghost predicate Waits(l: Link) {
    AwaitsToken(l.sd) && l.q.txOpen && !l.removed
  }

  ghost predicate WaitsThroughout(l: Link, es: seq<Event>) {
    forall i: nat | i <= |es| :: Waits(Exec(l, es[..i]))
  }

  ghost predicate NoTokenThroughout(l: Link, es: seq<Event>) {
    forall i: nat | i <= |es| :: Exec(l, es[..i]).wake.items == []
  }

  lemma ThroughoutBefore(l: Link, es: seq<Event>, n: nat)
    requires n <= |es| && WaitsThroughout(l, es) && NoTokenThroughout(l, es)
    ensures WaitsThroughout(l, es[..n]) && NoTokenThroughout(l, es[..n])
    ensures Waits(Exec(l, es[..n])) && Exec(l, es[..n]).wake.items == []
  {
    assert forall i: nat | i <= n :: es[..n][..i] == es[..i];
  }

  /** While the writer waits in vain an AFTER_* that has begun is not at rest: it finds the full queue, and wakes. */
  ghost predicate InVain(l: Link, r: Round) {
    Inv(l) && Waits(l) && l.wake.items == [] && 0 < l.q.cap && (r.InAfter? ==> !l.pc.Resting?) && !r.Done?
  }

  lemma VainGoesOn(l: Link, r: Round, e: Event)
    requires InVain(l, r) && Waits(Step(l, e)) && Step(l, e).wake.items == []
    ensures InVain(Step(l, e), NextRound(r, l, e))
  {
    StepKeepsInv(l, e);
    match e
    case LoopActs(refused) =>
    case _ =>
  }

  lemma {:induction false} VainRuns(l: Link, es: seq<Event>)
    requires Inv(l) && 0 < l.q.cap && WaitsThroughout(l, es) && NoTokenThroughout(l, es)
    ensures InVain(Exec(l, es), RoundOf(l, es))
  {
    ThroughoutBefore(l, es, |es|);
    assert es[..|es|] == es;
    if es == [] {
    } else {
      var n := |es| - 1;
      ThroughoutBefore(l, es, n);
      VainRuns(l, es[..n]);
      VainGoesOn(Exec(l, es[..n]), RoundOf(l, es[..n]), es[n]);
    }
  }

  /** From any good state of a connection, in any run in which its writer waits throughout: when an AFTER_* has gone
      from start to rest, the writer has had a token. */
  lemma WaitingWriterIsWokenInRuns(l: Link, es: seq<Event>)
    requires Inv(l) && 0 < l.q.cap && WaitsThroughout(l, es)
    requires RoundOf(l, es) == Done
    ensures exists i: nat | i <= |es| :: Exec(l, es[..i]).wake.items != []
  {
    if NoTokenThroughout(l, es) {
      VainRuns(l, es);
      assert false;
    }
  }
}
