/** The writing half of a bridged stream: it retries one held chunk against the send queue, consuming a wake token
    before each retry. The packet loop runs concurrently, so every atomic action of the writer is a step of its own. */
module SendHalf {
  import opened Chunks
  import opened Channels

  const SEND_CAPACITY: nat := 512
  const WAKE_CAPACITY: nat := 512

  datatype Token = Token

  /** A chunk that met a full queue, with the length its call will report. */
  datatype Held = Held(data: Chunk, size: nat)

  datatype WritePoll = NotPolled | Ready(n: nat) | Pending | BrokenPipe | ConnectionReset

  /** Where the writer is inside `poll_write`: outside, about to try a chunk, or about to poll for a wake token. */
  datatype WritePc = Out | Trying(held: Held) | SawFull

  /** `result` is what the latest `poll_write` returned and `buf` the buffer of the latest call. `enqueued` lists
      the chunks that entered the queue, `acked` the slices of its buffers the caller was told are written (and an
      empty slice for an end marker that found room). `misused` records that a call after a pending one passed a
      buffer that does not extend the held chunk. */
  datatype Sender = Sender(
    pending: Option<Held>, pc: WritePc, result: WritePoll, buf: Chunk,
    enqueued: seq<Chunk>, acked: seq<Chunk>, misused: bool)

  const IDLE_SENDER := Sender(None, Out, NotPolled, [], [], [], false)

  /** The writer with the two queues it shares with the packet loop. */
  datatype Outbox = Outbox(sd: Sender, q: Chan<Chunk>, wake: Chan<Token>)

  /** What the caller may take as written after `Ok(n)` for `buf`. */
  function Acknowledged(buf: Chunk, n: nat): Chunk {
    if n <= |buf| then buf[..n] else buf
  }

  /** Entry of `poll_write`: a held chunk is used in place of the buffer that was passed. */
  function Begin(sd: Sender, buf: Chunk): Sender {
    var held := if sd.pending.Some? then sd.pending.value else Held(buf, |buf|);
    sd.(pending := None, pc := Trying(held), buf := buf, misused := sd.misused || !(held.data <= buf))
  }

  /** The next atomic action of a running `poll_write`. */
  function Advance(o: Outbox): Outbox {
    match o.sd.pc
    case Out => o
    case Trying(held) =>
      (match o.q.SendResult()
       case Sent =>
         Outbox(o.sd.(pc := Out, result := Ready(held.size), enqueued := o.sd.enqueued + [held.data],
                      acked := o.sd.acked + [Acknowledged(o.sd.buf, held.size)]),
                o.q.TrySend(held.data), o.wake)
       case Refused => o.(sd := o.sd.(pc := Out, result := BrokenPipe))
       case Full => o.(sd := o.sd.(pc := SawFull, pending := Some(held))))
    case SawFull =>
      match o.wake.RecvResult()
      case Got(_) =>
        var held := if o.sd.pending.Some? then o.sd.pending.value else Held([], 0);
        Outbox(o.sd.(pc := Trying(held), pending := None), o.q, o.wake.TryRecv())
      case Ended => o.(sd := o.sd.(pc := Out, result := ConnectionReset))
      case Empty => o.(sd := o.sd.(pc := Out, result := Pending))
  }

  /** `poll_shutdown`: an end marker that finds no room is dropped and success is reported all the same. */
  function Shutdown(o: Outbox): Outbox {
    if o.q.Accepts() then
      Outbox(o.sd.(enqueued := o.sd.enqueued + [[]], acked := o.sd.acked + [[]]), o.q.TrySend([]), o.wake)
    else o
  }

  // ----- What one writer step keeps -----

  /** The held length is the held chunk's; while no call was misused, what was acknowledged is what was enqueued. */
  ghost predicate SenderInv(sd: Sender) {
    && (sd.pc.SawFull? ==> sd.pending.Some?)
    && (sd.pc.Trying? ==> sd.pending.None? && sd.pc.held.size == |sd.pc.held.data|)
    && (sd.pending.Some? ==> sd.pending.value.size == |sd.pending.value.data|)
    && (!sd.misused ==>
         && sd.acked == sd.enqueued
         && (sd.pc.Trying? ==> sd.pc.held.data <= sd.buf)
         && (sd.pc.SawFull? ==> sd.pending.value.data <= sd.buf))
  }

  lemma SenderStepsKeepInv(o: Outbox, buf: Chunk)
    requires SenderInv(o.sd)
    ensures SenderInv(Advance(o).sd)
    ensures o.sd.pc.Out? ==> SenderInv(Begin(o.sd, buf)) && SenderInv(Shutdown(o).sd)
  {
    if o.sd.pc.Trying? && !o.sd.misused {
      assert Acknowledged(o.sd.buf, o.sd.pc.held.size) == o.sd.pc.held.data;
    }
  }

  /** The writer found the queue full and is about to wait, or waits, for a token. */
  ghost predicate AwaitsToken(sd: Sender) {
    sd.pc.SawFull? || (sd.pc.Out? && sd.result.Pending?)
  }

  // ----- One whole call under interference -----

  /** What the packet loop's thread may do between two writer actions. */
  datatype Meddling = TakeChunk | GrantToken | HangUp

  function Meddle(o: Outbox, m: Meddling): Outbox {
    match m
    case TakeChunk => o.(q := o.q.TryRecv())
    case GrantToken => o.(wake := o.wake.TrySend(Token))
    case HangUp => o.(q := o.q.(rxOpen := false), wake := o.wake.(txOpen := false))
  }

  /** How many of the actions grant a token. */
  function Grants(ms: seq<Meddling>): nat {
    if ms == [] then 0 else Grants(ms[..|ms| - 1]) + if ms[|ms| - 1].GrantToken? then 1 else 0
  }

  function MeddleAll(o: Outbox, ms: seq<Meddling>): (r: Outbox)
    ensures r.sd == o.sd && |r.wake.items| <= |o.wake.items| + Grants(ms)
  {
    if ms == [] then o else Meddle(MeddleAll(o, ms[..|ms| - 1]), ms[|ms| - 1])
  }

  /** The packet loop's actions before the writer's i-th atomic action. */
  function Before(env: seq<seq<Meddling>>, i: nat): seq<Meddling> {
    if i < |env| then env[i] else []
  }

  /** The tokens granted from the i-th action on. */
  function Granted(env: seq<seq<Meddling>>, i: nat): nat
    decreases |env| - i
  {
    if i >= |env| then 0 else Grants(env[i]) + Granted(env, i + 1)
  }

  function CallRank(pc: WritePc): nat {
    match pc
    case Out => 0
    case SawFull => 1
    case Trying(_) => 2
  }

  /** Runs the call to its end, the packet loop acting in between as `env` says. */
  function RunCall(o: Outbox, env: seq<seq<Meddling>>, i: nat): Outbox
    decreases if i < |env| then |env| - i else 0, |o.wake.items|, CallRank(o.sd.pc)
  {
    if o.sd.pc.Out? then o else RunCall(Advance(MeddleAll(o, Before(env, i))), env, i + 1)
  }

  ghost predicate CallLeads(o: Outbox, env: seq<seq<Meddling>>, i: nat, final: Outbox) {
    RunCall(o, env, i) == final
  }

  lemma CallLeadsStep(o: Outbox, o': Outbox, env: seq<seq<Meddling>>, i: nat, final: Outbox)
    requires CallLeads(o, env, i, final)
    requires !o.sd.pc.Out? && o' == Advance(MeddleAll(o, Before(env, i)))
    ensures CallLeads(o', env, i + 1, final)
    ensures o'.sd.pc.Out? ==> o' == final
  {
  }

  /** The chunk a call with `buf` is about. */
  function Subject(sd: Sender, buf: Chunk): Held {
    if sd.pending.Some? then sd.pending.value else Held(buf, |buf|)
  }

  /** What one call leaves behind, whatever the packet loop does meanwhile: success enqueues exactly the subject
      and nothing else does; a pending or reset call holds on to it. */
  ghost predicate CallOutcome(sd: Sender, subject: Held, sd': Sender) {
    && sd'.pc == Out
    && sd'.enqueued == sd.enqueued + (if sd'.result.Ready? then [subject.data] else [])
    && (sd'.result.Ready? ==> sd'.result.n == subject.size)
    && sd'.pending == (if sd'.result.Pending? || sd'.result.ConnectionReset? then Some(subject) else None)
    && sd'.result != NotPolled
  }

  lemma {:induction false} RunCallOutcome(o: Outbox, env: seq<seq<Meddling>>, i: nat, subject: Held)
    requires (o.sd.pc, o.sd.pending) == (Trying(subject), None) || (o.sd.pc, o.sd.pending) == (SawFull, Some(subject))
    ensures CallOutcome(o.sd, subject, RunCall(o, env, i).sd)
    decreases if i < |env| then |env| - i else 0, |o.wake.items|, CallRank(o.sd.pc)
  {
    var o' := Advance(MeddleAll(o, Before(env, i)));
    if !o'.sd.pc.Out? {
      RunCallOutcome(o', env, i + 1, subject);
    }
  }

  /** A call on a full queue uses up every token and then waits, or is reset when the loop has hung up; it holds on to
      its chunk. */
  lemma {:induction false} FullQueueExactly(o: Outbox, held: Held, i: nat)
    requires o.sd.pc == Trying(held) && o.sd.pending == None && o.q.rxOpen && |o.q.items| >= o.q.cap
    ensures var o' := RunCall(o, [], i);
      && o'.sd.result == (if o.wake.txOpen then Pending else ConnectionReset)
      && o'.sd.pending == Some(held) && o'.q == o.q && o'.wake == o.wake.(items := [])
    decreases |o.wake.items|
  {
    var o1 := Advance(MeddleAll(o, Before([], i)));
    var o2 := Advance(MeddleAll(o1, Before([], i + 1)));
    assert RunCall(o, [], i) == RunCall(o1, [], i + 1) == RunCall(o2, [], i + 2);
    if o.wake.items == [] {
    } else {
      FullQueueExactly(o2, held, i + 2);
    }
  }

  /** What a call with nobody else acting returns and does: it fails on a dropped queue and lets its chunk go, enqueues
      its chunk if there is room without touching a token, and otherwise waits as above. */
  lemma CallExactly(o: Outbox, buf: Chunk)
    requires o.sd.pc.Out?
    ensures var o', x := RunCall(o.(sd := Begin(o.sd, buf)), [], 0), Subject(o.sd, buf);
      if !o.q.rxOpen then
        o'.sd.result == BrokenPipe && o'.sd.pending == None && o'.q == o.q && o'.wake == o.wake
      else if |o.q.items| < o.q.cap then
        && o'.sd.result == Ready(x.size) && o'.sd.pending == None
        && o'.q == o.q.(items := o.q.items + [x.data]) && o'.wake == o.wake
      else
        && o'.sd.result == (if o.wake.txOpen then Pending else ConnectionReset)
        && o'.sd.pending == Some(x) && o'.q == o.q && o'.wake == o.wake.(items := [])
  {
    var o1 := o.(sd := Begin(o.sd, buf));
    if o.q.rxOpen && |o.q.items| >= o.q.cap {
      FullQueueExactly(o1, Subject(o.sd, buf), 0);
    } else {
      assert RunCall(o1, [], 0) == RunCall(Advance(o1), [], 1) == Advance(o1);
    }
  }

  /** Exactly-once writes, one call: success enqueues one chunk, an error or a pending call none; the chunk is the
      first `n` bytes of the caller's buffer exactly when the buffer extends the chunk held from before. */
  lemma ExactlyOnce(o: Outbox, buf: Chunk, env: seq<seq<Meddling>>)
    requires SenderInv(o.sd) && o.sd.pc.Out?
    ensures var o' := RunCall(o.(sd := Begin(o.sd, buf)), env, 0);
      && CallOutcome(o.sd, Subject(o.sd, buf), o'.sd)
      && (o'.sd.result.Ready? ==>
           var n := o'.sd.result.n;
           (n <= |buf| && o'.sd.enqueued == o.sd.enqueued + [buf[..n]]) <==>
           (o.sd.pending.Some? ==> o.sd.pending.value.data <= buf))
  {
    var o1 := o.(sd := Begin(o.sd, buf));
    var subject := Subject(o.sd, buf);
    RunCallOutcome(o1, env, 0, subject);
    var sd' := RunCall(o1, env, 0).sd;
    if sd'.result.Ready? && sd'.result.n <= |buf| {
      var n := sd'.result.n;
      assert o.sd.enqueued + [buf[..n]] == o.sd.enqueued + [subject.data] <==> buf[..n] == subject.data by {
        assert (o.sd.enqueued + [buf[..n]])[|o.sd.enqueued|] == buf[..n];
        assert (o.sd.enqueued + [subject.data])[|o.sd.enqueued|] == subject.data;
      }
    }
  }

  /** The half the application writes to; it shares both queues with the packet loop. */
  class SlipstreamSendHalf {
    const sendTx: Channel<Chunk>
    const wakeRx: Channel<Token>
    var pendingSend: Option<Held>
    ghost var result: WritePoll
    ghost var lastBuf: Chunk
    ghost var enqueued: seq<Chunk>
    ghost var acked: seq<Chunk>
    ghost var misused: bool

    ghost predicate Valid() {
      sendTx as object != wakeRx as object
    }

    ghost function View(pc: WritePc): Outbox
      reads this, sendTx, wakeRx
    {
      Outbox(Sender(pendingSend, pc, result, lastBuf, enqueued, acked, misused), sendTx.st, wakeRx.st)
    }

    constructor (sendTx: Channel<Chunk>, wakeRx: Channel<Token>)
      requires sendTx as object != wakeRx as object
      ensures Valid() && this.sendTx == sendTx && this.wakeRx == wakeRx
      ensures View(Out) == Outbox(IDLE_SENDER, sendTx.st, wakeRx.st)
    {
      this.sendTx, this.wakeRx := sendTx, wakeRx;
      pendingSend, result, lastBuf, enqueued, acked, misused := None, NotPolled, [], [], [], false;
    }

    /** The packet loop's thread runs. */
    method Interfere(ms: seq<Meddling>, ghost pc: WritePc)
      requires Valid()
      modifies sendTx, wakeRx
      ensures View(pc) == MeddleAll(old(View(pc)), ms)
    {
      for k := 0 to |ms|
        invariant View(pc) == MeddleAll(old(View(pc)), ms[..k])
      {
        assert ms[..k + 1][..k] == ms[..k];
        match ms[k] {
          case TakeChunk => var _ := sendTx.TryRecv();
          case GrantToken => var _ := wakeRx.TrySend(Token);
          case HangUp =>
            sendTx.DropRx();
            wakeRx.DropTx();
        }
      }
      assert ms[..|ms|] == ms;
    }

    /** One `try_send` of a held chunk, after the packet loop's actions `ms`. */
    method TryHeld(held: Held, ms: seq<Meddling>) returns (sent: SendResult)
      requires Valid() && pendingSend == None
      modifies this, sendTx, wakeRx
      ensures View(if sent == Full then SawFull else Out) == Advance(MeddleAll(old(View(Trying(held))), ms))
      ensures |wakeRx.st.items| <= |old(wakeRx.st.items)| + Grants(ms)
      ensures match sent
        case Sent => result == Ready(held.size)
        case Refused => result == BrokenPipe
        case Full => pendingSend == Some(held)
    {
      Interfere(ms, Trying(held));
      sent := sendTx.TrySend(held.data);
      match sent {
        case Sent =>
          enqueued, acked := enqueued + [held.data], acked + [Acknowledged(lastBuf, held.size)];
          result := Ready(held.size);
        case Refused =>
          result := BrokenPipe;
        case Full =>
          pendingSend := Some(held);
      }
    }

    /** One poll for a wake token, after the packet loop's actions `ms`; a token takes the held chunk back. */
    method PollWake(held: Held, ms: seq<Meddling>) returns (token: RecvResult<Token>)
      requires Valid() && pendingSend == Some(held)
      modifies this, sendTx, wakeRx
      ensures View(if token.Got? then Trying(held) else Out) == Advance(MeddleAll(old(View(SawFull)), ms))
      ensures token.Got? ==> |wakeRx.st.items| + 1 <= |old(wakeRx.st.items)| + Grants(ms) && pendingSend == None
      ensures !token.Got? ==> |wakeRx.st.items| <= |old(wakeRx.st.items)| + Grants(ms)
      ensures !token.Got? ==> result == if token == Ended then ConnectionReset else Pending
    {
      Interfere(ms, SawFull);
      token := wakeRx.TryRecv();
      match token {
        case Got(_) =>
          pendingSend := None;
        case Ended =>
          result := ConnectionReset;
        case Empty =>
          result := Pending;
      }
    }

    /** The retry loop: tries `held`, and consumes a wake token before each further try. */
    method Retry(held: Held, env: seq<seq<Meddling>>) returns (r: WritePoll, retries: nat)
      requires Valid() && pendingSend == None
      modifies this, sendTx, wakeRx
      ensures View(Out) == RunCall(old(View(Trying(held))), env, 0)
      ensures r == result
      ensures retries <= |old(wakeRx.st.items)| + Granted(env, 0)
    {
      ghost var final := RunCall(View(Trying(held)), env, 0);
      var i := 0;
      retries := 0;
      while true
        invariant pendingSend == None
        invariant CallLeads(View(Trying(held)), env, i, final)
        invariant retries + |wakeRx.st.items| + Granted(env, i) <= |old(wakeRx.st.items)| + Granted(env, 0)
        decreases if i < |env| then |env| - i else 0, |wakeRx.st.items|
      {
        ghost var trying := View(Trying(held));
        var sent := TryHeld(held, Before(env, i));
        CallLeadsStep(trying, View(if sent == Full then SawFull else Out), env, i, final);
        i := i + 1;
        if sent != Full {
          return if sent == Sent then Ready(held.size) else BrokenPipe, retries;
        }
        ghost var polling := View(SawFull);
        var token := PollWake(held, Before(env, i));
        CallLeadsStep(polling, View(if token.Got? then Trying(held) else Out), env, i, final);
        i := i + 1;
        if !token.Got? {
          return if token == Ended then ConnectionReset else Pending, retries;
        }
        retries := retries + 1;
      }
    }

    /** `env` is what the packet loop does before each atomic action; `retries` counts the consumed tokens. */
    method PollWrite(buf: Chunk, env: seq<seq<Meddling>>) returns (r: WritePoll, retries: nat)
      requires Valid()
      modifies this, sendTx, wakeRx
      ensures View(Out) == RunCall(old(View(Out)).(sd := Begin(old(View(Out)).sd, buf)), env, 0)
      ensures r == result && CallOutcome(old(View(Out)).sd, Subject(old(View(Out)).sd, buf), View(Out).sd)
      ensures retries <= |old(wakeRx.st.items)| + Granted(env, 0)
    {
      var toSend := if pendingSend.Some? then pendingSend.value else Held(buf, |buf|);
      pendingSend := None;
      lastBuf, misused := buf, misused || !(toSend.data <= buf);
      RunCallOutcome(View(Trying(toSend)), env, 0, toSend);
      r, retries := Retry(toSend, env);
    }

    /** Reports success whether or not the end marker found room. */
    method PollShutdown() returns (ok: bool)
      requires Valid()
      modifies this, sendTx
      ensures View(Out) == Shutdown(old(View(Out)))
      ensures ok
      ensures enqueued == old(enqueued) + (if old(sendTx.st).Accepts() then [[]] else [])
    {
      var sent := sendTx.TrySend([]);
      if sent == Sent {
        enqueued, acked := enqueued + [[]], acked + [[]];
      }
      return true;
    }
  }
}
