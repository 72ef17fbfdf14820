/** What the server's context object does to one connection, as a run of the interleaved model. */
module ServerRuns {
  import opened Chunks
  import opened Channels
  import opened SendHalf
  import opened ServerBridge
  import opened ServerTable
  import SL = ServerLink

  /** The data of the adds that were accepted, and of those refused. */
  function Data(calls: seq<AddCall>, refused: bool): seq<Chunk> {
    if calls == [] then []
    else
      var last := calls[|calls| - 1];
      Data(calls[..|calls| - 1], refused) + if last.refused == refused then [last.data] else []
  }

  lemma DataSnoc(calls: seq<AddCall>, call: AddCall, refused: bool)
    ensures Data(calls + [call], refused) == Data(calls, refused) + if call.refused == refused then [call.data] else []
  {
    assert (calls + [call])[..|calls|] == calls;
  }

  /** The link after `calls` came off the front of its queue, with the loop about to look for more. */
  function Drained(l: SL.Link, calls: seq<AddCall>, rest: seq<Chunk>): SL.Link {
    l.(pc := SL.Receiving, q := l.q.(items := rest), wake := WakeTimes(l.wake, |calls|),
       added := l.added + Data(calls, false), lost := l.lost + Data(calls, true))
  }

  lemma DrainOneIsARun(l: SL.Link, calls: seq<AddCall>, rest: seq<Chunk>, call: AddCall)
    requires rest != [] && call.data == rest[0]
    ensures var l' := Drained(l, calls, rest);
      SL.LoopStep(SL.LoopStep(SL.LoopStep(l', false), call.refused), false) == Drained(l, calls + [call], rest[1..])
  {
    DataSnoc(calls, call, false);
    DataSnoc(calls, call, true);
    Assoc(l.added, Data(calls, false), [call.data]);
    Assoc(l.lost, Data(calls, true), [call.data]);
    assert Data(calls, false) + [] == Data(calls, false) && Data(calls, true) + [] == Data(calls, true);
  }

  /** The steps for one chunk: take it, add it, wake the writer. */
  function StepsFor(call: AddCall): seq<SL.Event> {
    [SL.LoopActs(false), SL.LoopActs(call.refused), SL.LoopActs(false)]
  }

  lemma ExecLoopActs(l: SL.Link, es: seq<SL.Event>, refused: bool)
    ensures SL.Exec(l, es + [SL.LoopActs(refused)]) == SL.LoopStep(SL.Exec(l, es), refused)
  {
    assert (es + [SL.LoopActs(refused)])[..|es|] == es;
  }

  lemma StepsOneByOne(es: seq<SL.Event>, call: AddCall)
    ensures es + StepsFor(call) ==
      ((es + [SL.LoopActs(false)]) + [SL.LoopActs(call.refused)]) + [SL.LoopActs(false)]
  {
  }

  lemma ExecSteps(l: SL.Link, es: seq<SL.Event>, call: AddCall)
    ensures SL.Exec(l, es + StepsFor(call))
         == SL.LoopStep(SL.LoopStep(SL.LoopStep(SL.Exec(l, es), false), call.refused), false)
  {
    var a := es + [SL.LoopActs(false)];
    StepsOneByOne(es, call);
    ExecLoopActs(l, es, false);
    ExecLoopActs(l, a, call.refused);
    ExecLoopActs(l, a + [SL.LoopActs(call.refused)], false);
  }

  function DrainRun(calls: seq<AddCall>): seq<SL.Event> {
    if calls == [] then [SL.LoopEnters] else DrainRun(calls[..|calls| - 1]) + StepsFor(calls[|calls| - 1])
  }

  lemma {:induction false} DrainRunDrains(l: SL.Link, calls: seq<AddCall>)
    requires l.pc.Resting? && !l.removed && |calls| <= |l.q.items|
    requires forall i | 0 <= i < |calls| :: calls[i].data == l.q.items[i]
    ensures SL.Exec(l, DrainRun(calls)) == Drained(l, calls, l.q.items[|calls|..])
  {
    if calls == [] {
      assert [SL.LoopEnters][..0] == [];
      assert SL.Exec(l, [SL.LoopEnters]) == SL.Step(SL.Exec(l, []), SL.LoopEnters);
      assert l.added + [] == l.added && l.lost + [] == l.lost && l.q.items[0..] == l.q.items;
    } else {
      var n := |calls| - 1;
      var front, call, rest := calls[..n], calls[n], l.q.items[n..];
      DrainRunDrains(l, front);
      ExecSteps(l, DrainRun(front), call);
      DrainOneIsARun(l, front, rest, call);
      assert front + [call] == calls && rest[1..] == l.q.items[n + 1..];
    }
  }

  /** The link as the context object's entry sees it. */
  ghost predicate SeenAs(l: SL.Link, c: Conn) {
    c.recvTx == Some(l.recv) && c.sendRx == Some(l.q) && c.wakeTx == Some(l.wake)
  }

  /** Draining a bound entry is a run of its link: the run ends with the entry's channels after the drain, and adds
      to the stream what picoquic accepted of the calls made and to the losses what it refused. */
  lemma DrainIsARun(
      l: SL.Link, c: Conn, calls: seq<AddCall>, refuses: (nat, nat) -> bool) returns (es: seq<SL.Event>)
    requires l.pc.Resting? && !l.removed && SeenAs(l, c) && c.streamId.Some?
    ensures var after, l' := AfterDrain((Some(c), calls), refuses), SL.Exec(l, es);
      && l'.pc.Resting? && !l'.removed && after.0.Some? && SeenAs(l', after.0.value) && calls <= after.1
      && l' == l.(q := l'.q, wake := l'.wake, added := l.added + Data(after.1[|calls|..], false),
                  lost := l.lost + Data(after.1[|calls|..], true))
  {
    var made := AddsFor(l.q.items, c.streamId.value, c.cnx, |calls|, refuses);
    DrainRunDrains(l, made);
    es := DrainRun(made) + [SL.LoopActs(false)];
    assert es[..|es| - 1] == DrainRun(made) && l.q.items[|made|..] == [];
    assert (calls + made)[|calls|..] == made;
  }

  /** The event is for the entry's own stream and carries a chunk or an end marker. */
  predicate Concerns(c: Conn, e: Event) {
    (e.StreamData? || e.StreamFin?) && c.streamId == Some(e.id) && (e.StreamData? ==> e.bytes != [])
  }

  /** A stream event for a bound entry is the matching step of its link: data of its stream and its FIN offer a chunk
      or an end marker, any other data, FIN or event of the stream changes nothing. */
  lemma EventIsAStep(l: SL.Link, c: Conn, e: Event)
    requires l.pc.Resting? && !l.removed && SeenAs(l, c) && c.streamId.Some?
    requires e.StreamData? || e.StreamFin? || e.OtherEvent?
    ensures EntryStep(Some(c), e).Some?
    ensures var c', chunk := EntryStep(Some(c), e).value, if e.StreamData? then e.bytes else [];
      if Concerns(c, e) then SeenAs(SL.Step(l, SL.Offered(chunk)), c') && c'.offered == c.offered + [chunk]
      else c' == c
  {
  }

  /** The first data of an unbound connection makes a new link with the source's capacities, and its bytes, if any, are
      the first thing the reader is offered. */
  lemma FirstDataIsNewLink(c: Conn, e: Event)
    requires c.streamId.None? && e.StreamData?
    ensures var l := SL.NewLink(4096, 512, 512);
      && EntryStep(Some(c), e).Some? && EntryStep(Some(c), e).value.streamId == Some(e.id)
      && SeenAs(if e.bytes == [] then l else SL.Step(l, SL.Offered(e.bytes)), EntryStep(Some(c), e).value)
      && EntryStep(Some(c), e).value.recvTx == Some(Chan(4096, if e.bytes == [] then [] else [e.bytes], true, true))
      && EntryStep(Some(c), e).value.sendRx == Some(Chan(512, [], true, true))
      && EntryStep(Some(c), e).value.wakeTx == Some(Chan(512, [], true, true))
  {
    assert [] + [e.bytes] == [e.bytes];
  }

  /** Dropping the table's ends of an entry is the removal of its link. */
  lemma HangUpIsAStep(l: SL.Link, c: Conn)
    requires l.pc.Resting? && SeenAs(l, c)
    ensures var l' := SL.Step(l, SL.Removed);
      HungUp((c.recvTx, c.sendRx, c.wakeTx)) == (Some(l'.recv), Some(l'.q), Some(l'.wake)) && l'.removed
  {
  }

  /** The owed wake comes: from any good resting state of a bound connection one AFTER_* gives its waiting writer a
      token, whatever is refused. */
  lemma WaitingWriterIsWoken(l: SL.Link, c: Conn, calls: seq<AddCall>, refuses: (nat, nat) -> bool)
    requires SL.Inv(l) && l.pc.Resting? && !l.removed && SeenAs(l, c) && c.streamId.Some?
    requires AwaitsToken(l.sd) && l.q.txOpen && 0 < l.q.cap
    ensures var after := AfterDrain((Some(c), calls), refuses).0;
      after.Some? && after.value.wakeTx.Some? && after.value.wakeTx.value.items != []
  {
    WakeTimesFills(l.wake, |l.q.items|);
  }
}
