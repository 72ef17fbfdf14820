/** The server's table of connections, keyed by connection pointer, as the stream callback keeps it. */
module ServerTable {
  import opened Chunks
  import opened Channels
  import opened RecvHalf
  import opened SendHalf

  /** The callback events the server reacts to. Bytes attached to a FIN are ignored, as is a stream reset. */
  datatype Event =
    | CnxReady(key: nat)
    | StreamData(key: nat, id: nat, bytes: Chunk)
    | StreamFin(key: nat, id: nat, bytes: Chunk)
    | CnxClose(key: nat)       // close, application close or stateless reset
    | OtherEvent(key: nat)
    // reads, writes, drains and drops change what a bound connection's channels hold
    | Traffic(key: nat, recv: Chan<Chunk>, send: Chan<Chunk>, wake: Chan<Token>)

  /** One connection; `offered` records what its receive channel was offered, whether or not it had room. */
  datatype Conn = Conn(
    cnx: nat, streamId: Option<nat>,
    recvTx: Option<Chan<Chunk>>, sendRx: Option<Chan<Chunk>>, wakeTx: Option<Chan<Token>>,
    offered: seq<Chunk>)

  function Unbound(key: nat): Conn {
    Conn(key, None, None, None, None, [])
  }

  function Offer(c: Conn, chunk: Chunk): Conn {
    if c.recvTx.None? then c
    else c.(recvTx := Some(c.recvTx.value.TrySend(chunk)), offered := c.offered + [chunk])
  }

  function OfferBytes(c: Conn, bytes: Chunk): Conn {
    if bytes == [] then c else Offer(c, bytes)
  }

  function Bind(c: Conn, id: nat): Conn {
    c.(streamId := Some(id), recvTx := Some(NewChan(RECV_CAPACITY)),
       sendRx := Some(NewChan(SEND_CAPACITY)), wakeTx := Some(NewChan(WAKE_CAPACITY)))
  }

  /** What an event does to the table's entry for its own key. */
  function EntryStep(entry: Option<Conn>, e: Event): Option<Conn> {
    match e
    case CnxReady(key) => Some(Unbound(key))
    case CnxClose(_) => None
    case OtherEvent(_) => entry
    case StreamData(_, id, bytes) =>
      if entry.None? then None
      else if entry.value.streamId.None? then Some(OfferBytes(Bind(entry.value, id), bytes))
      else if entry.value.streamId == Some(id) then Some(OfferBytes(entry.value, bytes))
      else entry
    case StreamFin(_, id, _) =>
      if entry.Some? && entry.value.streamId == Some(id) then Some(Offer(entry.value, [])) else entry
    case Traffic(_, recv, send, wake) =>
      if entry.Some? && entry.value.streamId.Some? then
        Some(entry.value.(recvTx := Some(recv), sendRx := Some(send), wakeTx := Some(wake)))
      else entry
  }

  /** Whether the event hands a read/write pair to the accept queue. */
  predicate Accepts(entry: Option<Conn>, e: Event) {
    e.StreamData? && entry.Some? && entry.value.streamId.None?
  }

  /** The table's entry for `key` after the events of `h`. */
  function Entry(h: seq<Event>, key: nat): Option<Conn> {
    if h == [] then None
    else
      var front, e := h[..|h| - 1], h[|h| - 1];
      if e.key == key then EntryStep(Entry(front, key), e) else Entry(front, key)
  }

  /** The connections a pair was handed to accept for, in order. */
  function Accepted(h: seq<Event>): seq<nat> {
    if h == [] then []
    else
      var front, e := h[..|h| - 1], h[|h| - 1];
      Accepted(front) + if Accepts(Entry(front, e.key), e) then [e.key] else []
  }

  /** The two entries differ at most in what their channels hold. */
  predicate SameShape(a: Option<Conn>, b: Option<Conn>) {
    && a.Some? == b.Some?
    && (a.Some? ==>
         && a.value.cnx == b.value.cnx && a.value.streamId == b.value.streamId && a.value.offered == b.value.offered
         && a.value.recvTx.Some? == b.value.recvTx.Some? && a.value.sendRx.Some? == b.value.sendRx.Some?
         && a.value.wakeTx.Some? == b.value.wakeTx.Some?)
  }

  /** What a callback does to an entry's stream and offers, and whether it hands out a pair, does not depend on what
      the channels hold. */
  lemma ShapeSteps(a: Option<Conn>, b: Option<Conn>, e: Event)
    requires SameShape(a, b) && !e.Traffic?
    ensures SameShape(EntryStep(a, e), EntryStep(b, e)) && Accepts(a, e) == Accepts(b, e)
  {
  }

  /** What one more event means for an entry and for the accepted connections. */
  lemma HistorySnoc(h: seq<Event>, e: Event, key: nat)
    ensures Entry(h + [e], key) == if e.key == key then EntryStep(Entry(h, key), e) else Entry(h, key)
    ensures Accepted(h + [e]) == Accepted(h) + if Accepts(Entry(h, e.key), e) then [e.key] else []
  {
    assert (h + [e])[..|h|] == h;
  }

  // ----- What the history says, independently of the table -----

  /** The i-th event made the connection ready and nothing replaced or closed it since. */
  ghost predicate ReadyAt(h: seq<Event>, key: nat, i: nat) {
    && i < |h| && h[i] == CnxReady(key)
    && forall j | i < j < |h| :: h[j] != CnxReady(key) && h[j] != CnxClose(key)
  }

  ghost predicate NoDataBetween(h: seq<Event>, key: nat, i: nat, d: nat) {
    forall j | i < j < d && j < |h| :: !(h[j].StreamData? && h[j].key == key)
  }

  /** The d-th event is the first stream data since the connection became ready at i. */
  ghost predicate BoundAt(h: seq<Event>, key: nat, i: nat, d: nat) {
    && ReadyAt(h, key, i) && i < d < |h| && h[d].StreamData? && h[d].key == key
    && NoDataBetween(h, key, i, d)
  }

  /** What stream `id` of the connection carried: each non-empty chunk, and an end marker for each FIN. */
  function Carried(h: seq<Event>, key: nat, id: nat): seq<Chunk> {
    if h == [] then []
    else
      var e := h[|h| - 1];
      Carried(h[..|h| - 1], key, id) +
      if e.StreamData? && e.key == key && e.id == id && e.bytes != [] then [e.bytes]
      else if e.StreamFin? && e.key == key && e.id == id then [[]]
      else []
  }

  ghost predicate EndsPresent(c: Conn, present: bool) {
    c.recvTx.Some? == present && c.sendRx.Some? == present && c.wakeTx.Some? == present
  }

  /** The entry says what happened since the connection became ready at i. */
  ghost predicate Matches(c: Conn, h: seq<Event>, key: nat, i: nat) {
    && ReadyAt(h, key, i) && c.cnx == key
    && EndsPresent(c, c.streamId.Some?)
    && (c.streamId.None? ==> c.offered == [] && NoDataBetween(h, key, i, |h|))
    && (c.streamId.Some? ==> exists d: nat ::
         BoundAt(h, key, i, d) && c.streamId == Some(h[d].id) && c.offered == Carried(h[d..], key, h[d].id))
  }

  lemma CarriedSnoc(h: seq<Event>, d: nat, e: Event, key: nat, id: nat)
    requires d <= |h|
    ensures Carried((h + [e])[d..], key, id) == Carried(h[d..], key, id) + Carried([e], key, id)
  {
    var s := (h + [e])[d..];
    assert s[..|s| - 1] == h[d..] && s[|s| - 1] == e;
    assert [e][..0] == [];
    assert Carried([], key, id) + Carried([e], key, id) == Carried([e], key, id);
  }

  /** An event that leaves the entry's stream and offers alone and is no ready, close or first data for it. */
  lemma StillMatches(c: Conn, c': Conn, h: seq<Event>, e: Event, key: nat, i: nat)
    requires Matches(c, h, key, i)
    requires e != CnxReady(key) && e != CnxClose(key)
    requires c'.cnx == c.cnx && c'.streamId == c.streamId && EndsPresent(c', c'.streamId.Some?)
    requires c.streamId.None? ==> !(e.StreamData? && e.key == key) && c'.offered == []
    requires c.streamId.Some? ==> c'.offered == c.offered + Carried([e], key, c.streamId.value)
    ensures Matches(c', h + [e], key, i)
  {
    var h' := h + [e];
    if c.streamId.Some? {
      var d: nat :| BoundAt(h, key, i, d) && c.streamId == Some(h[d].id) && c.offered == Carried(h[d..], key, h[d].id);
      CarriedSnoc(h, d, e, key, h[d].id);
      assert BoundAt(h', key, i, d);
    }
  }

  lemma NowBound(c: Conn, h: seq<Event>, e: Event, key: nat, i: nat)
    requires Matches(c, h, key, i) && c.streamId.None? && e.StreamData? && e.key == key
    ensures Matches(OfferBytes(Bind(c, e.id), e.bytes), h + [e], key, i)
  {
    var h' := h + [e];
    var c' := OfferBytes(Bind(c, e.id), e.bytes);
    assert BoundAt(h', key, i, |h|);
    assert h'[|h|..] == [e];
    assert [e][..0] == [] && Carried([], key, e.id) == [];
    assert c'.offered == Carried([e], key, e.id);
  }

  lemma CarriedOne(e: Event, key: nat, id: nat)
    ensures Carried([e], key, id) ==
      if e.StreamData? && e.key == key && e.id == id && e.bytes != [] then [e.bytes]
      else if e.StreamFin? && e.key == key && e.id == id then [[]]
      else []
  {
    assert [e][..0] == [];
  }

  ghost predicate RightAbout(entry: Option<Conn>, h: seq<Event>, key: nat) {
    match entry
    case Some(c) => exists i: nat :: Matches(c, h, key, i)
    case None => forall i: nat :: !ReadyAt(h, key, i)
  }

  lemma ReadyBefore(h: seq<Event>, e: Event, key: nat, i: nat)
    requires e != CnxReady(key)
    ensures ReadyAt(h + [e], key, i) ==> ReadyAt(h, key, i)
  {
    if ReadyAt(h + [e], key, i) {
      assert forall j | 0 <= j < |h| :: (h + [e])[j] == h[j];
    }
  }

  lemma StepKeepsRight(entry: Option<Conn>, h: seq<Event>, e: Event, key: nat)
    requires RightAbout(entry, h, key)
    ensures RightAbout(if e.key == key then EntryStep(entry, e) else entry, h + [e], key)
  {
    var entry' := if e.key == key then EntryStep(entry, e) else entry;
    var h' := h + [e];
    if e == CnxReady(key) {
      assert Matches(entry'.value, h', key, |h|);
    } else if e == CnxClose(key) {
      assert h'[|h|] == CnxClose(key);
    } else if entry.Some? {
      var c := entry.value;
      var i: nat :| Matches(c, h, key, i);
      if e.StreamData? && e.key == key && c.streamId.None? {
        NowBound(c, h, e, key, i);
      } else {
        if c.streamId.Some? {
          CarriedOne(e, key, c.streamId.value);
        }
        StillMatches(c, entry'.value, h, e, key, i);
      }
    } else {
      forall i: nat ensures !ReadyAt(h', key, i) {
        ReadyBefore(h, e, key, i);
      }
    }
  }

  /** The table after any callback sequence: a connection is listed exactly when it became ready and was not closed
      since; its three channel ends are present exactly when it is bound; it is bound to the stream of the first data
      since it became ready; and its receive channel was offered exactly that stream's chunks and end markers since,
      in order, and nothing of any other stream or connection. */
  lemma {:induction false} TableIsHistory(h: seq<Event>, key: nat)
    ensures RightAbout(Entry(h, key), h, key)
  {
    if h == [] {
    } else {
      var front := h[..|h| - 1];
      assert h == front + [h[|h| - 1]];
      TableIsHistory(front, key);
      StepKeepsRight(Entry(front, key), front, h[|h| - 1], key);
    }
  }

  /** The history says the same about entries of the same shape. */
  lemma SameShapeIsRight(a: Option<Conn>, b: Option<Conn>, h: seq<Event>, key: nat)
    requires SameShape(a, b) && RightAbout(b, h, key)
    ensures RightAbout(a, h, key)
  {
    if b.Some? {
      var i: nat :| Matches(b.value, h, key, i);
      assert Matches(a.value, h, key, i);
    }
  }

  /** The pairs due: one for each event that is the first stream data of an incarnation. */
  ghost function PairsDue(h: seq<Event>): seq<nat> {
    if h == [] then []
    else
      var n := |h| - 1;
      PairsDue(h[..n]) + if exists i: nat :: BoundAt(h, h[n].key, i, n) then [h[n].key] else []
  }

  /** A read/write pair is offered to accept exactly once per incarnation that saw stream data, when it first did. */
  lemma {:induction false} AcceptedOncePerIncarnation(h: seq<Event>)
    ensures Accepted(h) == PairsDue(h)
  {
    if h == [] {
    } else {
      var n := |h| - 1;
      AcceptedOncePerIncarnation(h[..n]);
      AcceptsExactlyFirstData(h[..n], h[n]);
      assert h == h[..n] + [h[n]];
    }
  }

  lemma ReadyIsUnique(h: seq<Event>, key: nat, i: nat, j: nat)
    requires ReadyAt(h, key, i) && ReadyAt(h, key, j)
    ensures i == j
  {
  }

  lemma AcceptsExactlyFirstData(front: seq<Event>, e: Event)
    ensures Accepts(Entry(front, e.key), e) <==> exists i: nat :: BoundAt(front + [e], e.key, i, |front|)
  {
    var h, entry := front + [e], Entry(front, e.key);
    TableIsHistory(front, e.key);
    if Accepts(entry, e) {
      var i: nat :| Matches(entry.value, front, e.key, i);
      assert BoundAt(h, e.key, i, |front|);
    } else if i: nat :| BoundAt(h, e.key, i, |front|) {
      FirstDataAccepts(front, e, entry, i);
    }
  }

  /** The first data since a connection became ready finds its entry unbound. */
  lemma FirstDataAccepts(front: seq<Event>, e: Event, entry: Option<Conn>, i: nat)
    requires RightAbout(entry, front, e.key) && BoundAt(front + [e], e.key, i, |front|)
    ensures Accepts(entry, e)
  {
    ReadyBefore(front, e, e.key, i);
    if entry.Some? {
      var i': nat :| Matches(entry.value, front, e.key, i');
      ReadyIsUnique(front, e.key, i, i');
      NoBoundBefore(front, e, e.key, i);
    }
  }

  lemma NoBoundBefore(front: seq<Event>, e: Event, key: nat, i: nat)
    requires BoundAt(front + [e], key, i, |front|)
    ensures forall d: nat :: !BoundAt(front, key, i, d)
  {
    forall d: nat ensures !BoundAt(front, key, i, d) {
      if i < d < |front| {
        assert (front + [e])[d] == front[d];
      }
    }
  }

  // ----- Bytes attached to a FIN -----

  /** Everything the peer sent on the stream, bytes attached to a FIN included. */
  function SentBytes(h: seq<Event>, key: nat, id: nat): Chunk {
    if h == [] then []
    else
      var e := h[|h| - 1];
      SentBytes(h[..|h| - 1], key, id) +
      if (e.StreamData? || e.StreamFin?) && e.key == key && e.id == id then e.bytes else []
  }

  ghost predicate NoBytesOnFin(h: seq<Event>, key: nat, id: nat) {
    forall j | 0 <= j < |h| :: h[j].StreamFin? && h[j].key == key && h[j].id == id ==> h[j].bytes == []
  }

  /** What one event carries on the stream, and what of it is offered. */
  lemma CarriedNow(e: Event, key: nat, id: nat)
    ensures |Flatten(Carried([e], key, id))| <= |SentBytes([e], key, id)|
    ensures Flatten(Carried([e], key, id)) == SentBytes([e], key, id) <==> NoBytesOnFin([e], key, id)
  {
    CarriedOne(e, key, id);
    assert [e][..0] == [] && [e][0] == e;
    if Carried([e], key, id) != [] {
      FlattenOne(Carried([e], key, id)[0]);
    }
    assert NoBytesOnFin([e], key, id) <==> (e.StreamFin? && e.key == key && e.id == id ==> e.bytes == []);
  }

  lemma SentSnoc(h: seq<Event>, e: Event, key: nat, id: nat)
    ensures SentBytes(h + [e], key, id) == SentBytes(h, key, id) + SentBytes([e], key, id)
    ensures NoBytesOnFin(h + [e], key, id) <==> NoBytesOnFin(h, key, id) && NoBytesOnFin([e], key, id)
  {
    assert (h + [e])[..|h|] == h && (h + [e])[|h|] == e;
    assert [e][..0] == [] && [e][0] == e;
    assert forall j | 0 <= j < |h| :: (h + [e])[j] == h[j];
  }

  lemma {:induction false} CarriedBytesExactly(h: seq<Event>, key: nat, id: nat)
    ensures |Flatten(Carried(h, key, id))| <= |SentBytes(h, key, id)|
    ensures Flatten(Carried(h, key, id)) == SentBytes(h, key, id) <==> NoBytesOnFin(h, key, id)
  {
    if h == [] {
    } else {
      var front, e := h[..|h| - 1], h[|h| - 1];
      assert h == front + [e];
      CarriedBytesExactly(front, key, id);
      CarriedNow(e, key, id);
      CarriedSnoc(front, 0, e, key, id);
      SentSnoc(front, e, key, id);
      FlattenConcat(Carried(front, key, id), Carried([e], key, id));
      AppendsExactly(Flatten(Carried(front, key, id)), Flatten(Carried([e], key, id)),
                     SentBytes(front, key, id), SentBytes([e], key, id));
    }
  }

  /** Before the first data nothing that carries bytes is offered. */
  lemma {:induction false} NothingCarriedBefore(h: seq<Event>, key: nat, id: nat)
    requires forall j | 0 <= j < |h| :: !(h[j].StreamData? && h[j].key == key)
    ensures Flatten(Carried(h, key, id)) == []
  {
    if h == [] {
    } else {
      var front, e := h[..|h| - 1], h[|h| - 1];
      assert h == front + [e];
      NothingCarriedBefore(front, key, id);
      CarriedSnoc(front, 0, e, key, id);
      CarriedOne(e, key, id);
      FlattenConcat(Carried(front, key, id), Carried([e], key, id));
      if Carried([e], key, id) != [] {
        FlattenOne([]);
      }
    }
  }

  lemma {:induction false} CarriedConcat(g: seq<Event>, h: seq<Event>, key: nat, id: nat)
    ensures Carried(g + h, key, id) == Carried(g, key, id) + Carried(h, key, id)
  {
    if h == [] {
      assert g + h == g;
    } else {
      var front, e := h[..|h| - 1], h[|h| - 1];
      CarriedConcat(g, front, key, id);
      assert h == front + [e] && g + h == (g + front) + [e];
      CarriedSnoc(g + front, 0, e, key, id);
      CarriedSnoc(front, 0, e, key, id);
      Assoc(Carried(g, key, id), Carried(front, key, id), Carried([e], key, id));
    }
  }

  lemma BoundIsUnique(h: seq<Event>, key: nat, i: nat, d: nat, i': nat, d': nat)
    requires BoundAt(h, key, i, d) && BoundAt(h, key, i', d')
    ensures i == i' && d == d'
  {
    ReadyIsUnique(h, key, i, i');
  }

  /** The entry of a connection that saw data: bound to the stream of that data and offered what it carried since. */
  lemma BoundEntry(h: seq<Event>, key: nat, i: nat, d: nat)
    requires BoundAt(h, key, i, d)
    ensures Entry(h, key).Some? && Entry(h, key).value.streamId == Some(h[d].id)
    ensures Entry(h, key).value.offered == Carried(h[d..], key, h[d].id)
  {
    TableIsHistory(h, key);
    assert Entry(h, key).Some?;
    var c := Entry(h, key).value;
    var i': nat :| Matches(c, h, key, i');
    ReadyIsUnique(h, key, i, i');
    if c.streamId.Some? {
      var d': nat :|
        BoundAt(h, key, i', d') && c.streamId == Some(h[d'].id) && c.offered == Carried(h[d'..], key, h[d'].id);
      BoundIsUnique(h, key, i, d, i', d');
    }
  }

  /** A bound connection's reader was offered all the bytes the peer sent on its stream since the connection became
      ready exactly when none of them came attached to a FIN. */
  lemma FinBytesIgnoredExactly(h: seq<Event>, key: nat, i: nat, d: nat)
    requires BoundAt(h, key, i, d)
    ensures Entry(h, key).Some? && Entry(h, key).value.streamId == Some(h[d].id)
    ensures Flatten(Entry(h, key).value.offered) == SentBytes(h[i..], key, h[d].id) <==>
            NoBytesOnFin(h[i..], key, h[d].id)
  {
    var id := h[d].id;
    BoundEntry(h, key, i, d);
    assert h[i..] == h[i..d] + h[d..];
    NothingCarriedBefore(h[i..d], key, id);
    CarriedConcat(h[i..d], h[d..], key, id);
    FlattenConcat(Carried(h[i..d], key, id), Carried(h[d..], key, id));
    CarriedBytesExactly(h[i..], key, id);
    assert [] + Flatten(Carried(h[d..], key, id)) == Flatten(Carried(h[d..], key, id));
  }

  /** A connection whose only message arrives with its FIN is never bound and never offered to accept. */
  lemma MessageWithFinIsNeverAccepted()
    ensures var h := [CnxReady(1), StreamFin(1, 0, [7])];
      Accepted(h) == [] && Entry(h, 1) == Some(Unbound(1))
  {
    var h := [CnxReady(1), StreamFin(1, 0, [7])];
    assert h[..1] == [CnxReady(1)] && [CnxReady(1)][..0] == [];
    assert Entry([CnxReady(1)], 1) == Some(Unbound(1)) && Accepted([CnxReady(1)]) == [];
  }
}
