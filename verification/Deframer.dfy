/** Draining complete length-prefixed packets from a growing buffer. The three feed functions differ only in their
    header layout and in where the packets go. */
module Deframer {
  import opened Chunks
  import opened LittleEndian

  /** A fixed header with the payload length as four little-endian bytes at `lenAt`. */
  datatype Layout = Layout(header: nat, lenAt: nat) {
    ghost predicate Valid() {
      lenAt + 4 <= header
    }
  }

  const KCP := Layout(24, 20)     // feed_packets_to_kcp and feed_packets_to_kcprs
  const YS_KCP := Layout(28, 24)  // feed_packets_to_ys_kcp

  /** The length of the packet a buffer starts with, as its header announces it. */
  function Announced(l: Layout, buf: Chunk): nat
    requires l.Valid() && l.header <= |buf|
  {
    l.header + FromLe(buf[l.lenAt..l.lenAt + 4])
  }

  /** The buffer starts with a whole packet. */
  predicate StartsWithPacket(l: Layout, buf: Chunk)
    requires l.Valid()
  {
    l.header <= |buf| && Announced(l, buf) <= |buf|
  }

  predicate IsPacket(l: Layout, p: Chunk)
    requires l.Valid()
  {
    l.header <= |p| && Announced(l, p) == |p|
  }

  /** The whole packets `ps` came off the front of `buf`, and `rest` is what is left. */
  ghost predicate Fed(l: Layout, buf: Chunk, ps: seq<Chunk>, rest: Chunk)
    requires l.Valid()
  {
    buf == Flatten(ps) + rest && forall p | p in ps :: IsPacket(l, p)
  }

  /** ... and the rest is too short for another one. */
  ghost predicate Framing(l: Layout, buf: Chunk, ps: seq<Chunk>, rest: Chunk)
    requires l.Valid()
  {
    Fed(l, buf, ps, rest) && !StartsWithPacket(l, rest)
  }

  /** The packets a buffer holds, and the rest. */
  function Parse(l: Layout, buf: Chunk): (seq<Chunk>, Chunk)
    requires l.Valid()
    decreases |buf|
  {
    if !StartsWithPacket(l, buf) then ([], buf)
    else
      var n := Announced(l, buf);
      var (ps, rest) := Parse(l, buf[n..]);
      ([buf[..n]] + ps, rest)
  }

  lemma PacketStarts(l: Layout, p: Chunk, tail: Chunk)
    requires l.Valid() && IsPacket(l, p)
    ensures StartsWithPacket(l, p + tail) && Announced(l, p + tail) == |p|
  {
    assert (p + tail)[l.lenAt..l.lenAt + 4] == p[l.lenAt..l.lenAt + 4];
  }

  lemma FirstIsPacket(l: Layout, buf: Chunk)
    requires l.Valid() && StartsWithPacket(l, buf)
    ensures IsPacket(l, buf[..Announced(l, buf)])
  {
    var n := Announced(l, buf);
    assert buf[..n][l.lenAt..l.lenAt + 4] == buf[l.lenAt..l.lenAt + 4];
  }

  lemma FedNothing(l: Layout, buf: Chunk)
    requires l.Valid()
    ensures Fed(l, buf, [], buf)
  {
  }

  lemma FedTwice(l: Layout, buf: Chunk, ps: seq<Chunk>, rest: Chunk, qs: seq<Chunk>, rest': Chunk)
    requires l.Valid() && Fed(l, buf, ps, rest) && Fed(l, rest, qs, rest')
    ensures Fed(l, buf, ps + qs, rest')
  {
    FlattenConcat(ps, qs);
    Assoc(Flatten(ps), Flatten(qs), rest');
  }

  lemma FedOne(l: Layout, buf: Chunk)
    requires l.Valid() && StartsWithPacket(l, buf)
    ensures var n := Announced(l, buf); Fed(l, buf, [buf[..n]], buf[n..])
  {
    FirstIsPacket(l, buf);
    FlattenOne(buf[..Announced(l, buf)]);
  }

  lemma FedAppend(l: Layout, buf: Chunk, ps: seq<Chunk>, rest: Chunk, more: Chunk)
    requires l.Valid() && Fed(l, buf, ps, rest)
    ensures Fed(l, buf + more, ps, rest + more)
  {
    Assoc(Flatten(ps), rest, more);
  }

  lemma {:induction false} ParseIsFraming(l: Layout, buf: Chunk)
    requires l.Valid()
    ensures Framing(l, buf, Parse(l, buf).0, Parse(l, buf).1)
    decreases |buf|
  {
    if StartsWithPacket(l, buf) {
      var n := Announced(l, buf);
      var (ps, rest) := Parse(l, buf[n..]);
      ParseIsFraming(l, buf[n..]);
      FedOne(l, buf);
      FedTwice(l, buf, [buf[..n]], buf[n..], ps, rest);
    }
  }

  /** There is only one way to cut a buffer into whole packets and a rest that holds none. */
  lemma {:induction false} FramingIsUnique(l: Layout, buf: Chunk, ps: seq<Chunk>, rest: Chunk)
    requires l.Valid() && Framing(l, buf, ps, rest)
    ensures Parse(l, buf) == (ps, rest)
    decreases |ps|
  {
    if ps == [] {
      assert buf == rest;
    } else {
      var p, tail := ps[0], Flatten(ps[1..]) + rest;
      Assoc(p, Flatten(ps[1..]), rest);
      PacketStarts(l, p, tail);
      assert buf[..|p|] == p && buf[|p|..] == tail;
      FramingIsUnique(l, tail, ps[1..], rest);
      assert ps == [p] + ps[1..];
    }
  }

  /** Packets already taken off the front are the first packets of the whole buffer, and the others follow. */
  lemma FedIsParse(l: Layout, buf: Chunk, ps: seq<Chunk>, rest: Chunk)
    requires l.Valid() && Fed(l, buf, ps, rest)
    ensures Parse(l, buf) == (ps + Parse(l, rest).0, Parse(l, rest).1)
  {
    var (qs, rest') := Parse(l, rest);
    ParseIsFraming(l, rest);
    FedTwice(l, buf, ps, rest, qs, rest');
    FramingIsUnique(l, buf, ps + qs, rest');
  }

  /** Parsing more bytes after a parse continues where it stopped. */
  lemma ParseContinues(l: Layout, a: Chunk, b: Chunk)
    requires l.Valid()
    ensures var (ps, rest) := Parse(l, a);
      var (qs, rest') := Parse(l, rest + b);
      Parse(l, a + b) == (ps + qs, rest')
  {
    var (ps, rest) := Parse(l, a);
    ParseIsFraming(l, a);
    FedAppend(l, a, ps, rest, b);
    FedIsParse(l, a + b, ps, rest + b);
  }

  /** What was handed over after the first `from` inputs came off the front of `buf`, and `rest` is left. */
  ghost predicate FedSince(l: Layout, buf: Chunk, from: nat, inputs: seq<Chunk>, rest: Chunk)
    requires l.Valid()
  {
    from <= |inputs| && Fed(l, buf, inputs[from..], rest)
  }

  lemma FedNext(l: Layout, buf: Chunk, from: nat, inputs: seq<Chunk>, rest: Chunk)
    requires l.Valid() && FedSince(l, buf, from, inputs, rest) && StartsWithPacket(l, rest)
    ensures var n := Announced(l, rest); FedSince(l, buf, from, inputs + [rest[..n]], rest[n..])
  {
    var n := Announced(l, rest);
    FedOne(l, rest);
    FedTwice(l, buf, inputs[from..], rest, [rest[..n]], rest[n..]);
    assert inputs[from..] + [rest[..n]] == (inputs + [rest[..n]])[from..];
  }

  // ----- The feed loop -----

  /** The growing buffer the receiver keeps. */
  class Buffer {
    var data: Chunk

    constructor ()
      ensures data == []
    {
      data := [];
    }
  }

  /** The protocol engine the packets go to; its n-th `input` may fail. */
  class Kcp {
    const fails: nat -> bool
    var inputs: seq<Chunk>

    constructor (fails: nat -> bool)
      ensures this.fails == fails && inputs == []
    {
      this.fails := fails;
      inputs := [];
    }

    method Input(packet: Chunk) returns (ok: bool)
      modifies this
      ensures inputs == old(inputs) + [packet] && ok == !fails(|old(inputs)|)
    {
      ok := !fails(|inputs|);
      inputs := inputs + [packet];
    }
  }

  /** Hands every complete packet to `kcp`, in order; stops at the first failing input, whose packet is used up.
      Whatever happens, what was handed over followed by the leftover is what the buffer held. */
  method FeedPackets(l: Layout, buf: Buffer, kcp: Kcp) returns (ok: bool)
    requires l.Valid()
    modifies buf, kcp
    ensures old(kcp.inputs) <= kcp.inputs
    ensures Fed(l, old(buf.data), kcp.inputs[|old(kcp.inputs)|..], buf.data)
    ensures ok ==> !StartsWithPacket(l, buf.data)
    ensures forall k | |old(kcp.inputs)| <= k < |kcp.inputs| :: kcp.fails(k) <==> !ok && k == |kcp.inputs| - 1
    ensures !ok ==> |old(kcp.inputs)| < |kcp.inputs|
  {
    ghost var from := |kcp.inputs|;
    FedNothing(l, buf.data);
    while l.header <= |buf.data|
      invariant FedSince(l, old(buf.data), from, kcp.inputs, buf.data) && old(kcp.inputs) <= kcp.inputs
      invariant forall k | from <= k < |kcp.inputs| :: !kcp.fails(k)
      decreases |buf.data|
    {
      var payloadLen := FromLe(buf.data[l.lenAt..l.lenAt + 4]);
      var packetLen := l.header + payloadLen;
      if |buf.data| < packetLen {
        break;
      }
      var packet := buf.data[..packetLen];
      FedNext(l, old(buf.data), from, kcp.inputs, buf.data);
      buf.data := buf.data[packetLen..];
      ok := kcp.Input(packet);
      if !ok {
        return false;
      }
    }
    return true;
  }

  // ----- Many fragments -----

  /** What appending the fragments one by one and parsing after each yields. */
  function ParseFragments(l: Layout, frags: seq<Chunk>): (seq<Chunk>, Chunk)
    requires l.Valid()
  {
    if frags == [] then ([], [])
    else
      var (ps, rest) := ParseFragments(l, frags[..|frags| - 1]);
      var (qs, rest') := Parse(l, rest + frags[|frags| - 1]);
      (ps + qs, rest')
  }

  /** Deframing does not depend on how the input was cut: any fragments give the packets and the leftover of their
      concatenation. */
  lemma {:induction false} FragmentationIndependent(l: Layout, frags: seq<Chunk>)
    requires l.Valid()
    ensures ParseFragments(l, frags) == Parse(l, Flatten(frags))
  {
    if frags == [] {
      FramingIsUnique(l, [], [], []);
    } else {
      var front, last := frags[..|frags| - 1], frags[|frags| - 1];
      FragmentationIndependent(l, front);
      assert frags == front + [last];
      FlattenSnoc(front, last);
      ParseContinues(l, Flatten(front), last);
    }
  }

  /** The receive loop: appends each datagram and feeds, and ends with the first feed that fails. The engine got the
      packets of everything taken in, less those still in the buffer; without a failure these are all packets of the
      whole input and the buffer holds the leftover. The failing input, if any, is the last one made. */
  method Receive(l: Layout, frags: seq<Chunk>, buf: Buffer, kcp: Kcp) returns (failed: bool, taken: nat)
    requires l.Valid() && buf.data == [] && kcp.inputs == []
    modifies buf, kcp
    ensures taken <= |frags| && (!failed ==> taken == |frags|)
    ensures Parse(l, Flatten(frags[..taken])) == (kcp.inputs + Parse(l, buf.data).0, Parse(l, buf.data).1)
    ensures !failed ==> (kcp.inputs, buf.data) == Parse(l, Flatten(frags))
    ensures forall k | 0 <= k < |kcp.inputs| :: kcp.fails(k) <==> failed && k == |kcp.inputs| - 1
    ensures failed ==> kcp.inputs != []
  {
    FedNothing(l, []);
    for i := 0 to |frags|
      invariant Fed(l, Flatten(frags[..i]), kcp.inputs, buf.data)
      invariant forall k | 0 <= k < |kcp.inputs| :: !kcp.fails(k)
      invariant !StartsWithPacket(l, buf.data)
    {
      var ok := ReceiveOne(l, Flatten(frags[..i]), frags[i], buf, kcp);
      assert frags[..i + 1] == frags[..i] + [frags[i]];
      FlattenSnoc(frags[..i], frags[i]);
      if !ok {
        FedIsParse(l, Flatten(frags[..i + 1]), kcp.inputs, buf.data);
        return true, i + 1;
      }
    }
    assert frags[..|frags|] == frags;
    FedIsParse(l, Flatten(frags), kcp.inputs, buf.data);
    FramingIsUnique(l, Flatten(frags), kcp.inputs, buf.data);
    return false, |frags|;
  }

  method ReceiveOne(l: Layout, ghost before: Chunk, frag: Chunk, buf: Buffer, kcp: Kcp) returns (ok: bool)
    requires l.Valid() && Fed(l, before, kcp.inputs, buf.data)
    modifies buf, kcp
    ensures Fed(l, before + frag, kcp.inputs, buf.data) && old(kcp.inputs) <= kcp.inputs
    ensures ok ==> !StartsWithPacket(l, buf.data)
    ensures forall k | |old(kcp.inputs)| <= k < |kcp.inputs| :: kcp.fails(k) <==> !ok && k == |kcp.inputs| - 1
    ensures !ok ==> |old(kcp.inputs)| < |kcp.inputs|
  {
    FedAppend(l, before, kcp.inputs, buf.data, frag);
    buf.data := buf.data + frag;
    ghost var ps, held := kcp.inputs, buf.data;
    ok := FeedPackets(l, buf, kcp);
    FedTwice(l, before + frag, ps, held, kcp.inputs[|ps|..], buf.data);
    assert kcp.inputs == ps + kcp.inputs[|ps|..];
  }

  // ----- Encoding -----

  /** A packet as the protocol engines write it: the header with its length field set, then the payload. */
  function Encode(l: Layout, header: Chunk, payload: Chunk): Chunk
    requires l.Valid() && |header| == l.header && |payload| < U32
  {
    header[..l.lenAt] + ToLe(|payload|) + header[l.lenAt + 4..] + payload
  }

  lemma EncodeIsPacket(l: Layout, header: Chunk, payload: Chunk)
    requires l.Valid() && |header| == l.header && |payload| < U32
    ensures IsPacket(l, Encode(l, header, payload)) && Encode(l, header, payload)[l.header..] == payload
  {
    FromTo(|payload|);
    var p := Encode(l, header, payload);
    assert p[l.lenAt..l.lenAt + 4] == ToLe(|payload|);
  }

  ghost predicate Encodable(l: Layout, headers: seq<Chunk>, payloads: seq<Chunk>)
    requires l.Valid()
  {
    && |headers| == |payloads|
    && (forall h | h in headers :: |h| == l.header)
    && (forall p | p in payloads :: |p| < U32)
  }

  function EncodeAll(l: Layout, headers: seq<Chunk>, payloads: seq<Chunk>): (ps: seq<Chunk>)
    requires l.Valid() && Encodable(l, headers, payloads)
    ensures |ps| == |payloads|
  {
    seq(|payloads|, i requires 0 <= i < |payloads| => Encode(l, headers[i], payloads[i]))
  }

  /** Packet round trip: any list of packets, written in any pieces and fed after each piece, comes out as exactly
      that list with an empty buffer, and each packet carries its payload. */
  lemma PacketRoundTrip(l: Layout, headers: seq<Chunk>, payloads: seq<Chunk>, pieces: seq<Chunk>)
    requires l.Valid() && Encodable(l, headers, payloads)
    requires Flatten(pieces) == Flatten(EncodeAll(l, headers, payloads))
    ensures ParseFragments(l, pieces) == (EncodeAll(l, headers, payloads), [])
    ensures forall i | 0 <= i < |payloads| :: EncodeAll(l, headers, payloads)[i][l.header..] == payloads[i]
  {
    var ps := EncodeAll(l, headers, payloads);
    forall i | 0 <= i < |ps| ensures IsPacket(l, ps[i]) && ps[i][l.header..] == payloads[i] {
      EncodeIsPacket(l, headers[i], payloads[i]);
    }
    assert Flatten(ps) == Flatten(ps) + [];
    FramingIsUnique(l, Flatten(ps), ps, []);
    FragmentationIndependent(l, pieces);
  }

  /** The same for the layouts of the three engines: 24 bytes with the length at 20, and 28 with the length at 24. */
  lemma EnginesRoundTrip(ysKcp: bool, headers: seq<Chunk>, payloads: seq<Chunk>, pieces: seq<Chunk>)
    requires |headers| == |payloads|
    requires forall h | h in headers :: |h| == if ysKcp then 28 else 24
    requires forall p | p in payloads :: |p| < U32
    requires Flatten(pieces) == Flatten(EncodeAll(if ysKcp then YS_KCP else KCP, headers, payloads))
    ensures var l := if ysKcp then YS_KCP else KCP;
      && ParseFragments(l, pieces) == (EncodeAll(l, headers, payloads), [])
      && forall i | 0 <= i < |payloads| :: EncodeAll(l, headers, payloads)[i][l.header..] == payloads[i]
  {
    PacketRoundTrip(if ysKcp then YS_KCP else KCP, headers, payloads, pieces);
  }

  // ----- The layouts, byte by byte -----

  function Value(a: byte, b: byte, c: byte, d: byte): nat {
    a as nat + 256 * b as nat + 65536 * c as nat + 16777216 * d as nat
  }

  /** The length field of a layout, and what parsing makes of it. */
  lemma ParseByLength(l: Layout, buf: Chunk, at: nat)
    requires l.Valid() && l.header <= |buf| && at == l.lenAt
    ensures var n := l.header + Value(buf[at], buf[at + 1], buf[at + 2], buf[at + 3]);
      if |buf| < n then Parse(l, buf) == ([], buf)
      else Parse(l, buf) == ([buf[..n]] + Parse(l, buf[n..]).0, Parse(l, buf[n..]).1)
  {
    var f := buf[at..at + 4];
    assert f[0] == buf[at] && f[1] == buf[at + 1] && f[2] == buf[at + 2] && f[3] == buf[at + 3];
    assert Announced(l, buf) == l.header + Value(buf[at], buf[at + 1], buf[at + 2], buf[at + 3]);
  }

  /** What the first two engines are handed: as long as a buffer has 24 bytes, the packet of 24 bytes and as many more
      as its bytes 20 to 23 say, the lowest first, if it is complete. */
  lemma KcpParseExactly(l: Layout, buf: Chunk)
    requires l == KCP
    ensures |buf| < 24 ==> Parse(l, buf) == ([], buf)
    ensures |buf| >= 24 ==>
      var n := 24 + Value(buf[20], buf[21], buf[22], buf[23]);
      if |buf| < n then Parse(l, buf) == ([], buf)
      else Parse(l, buf) == ([buf[..n]] + Parse(l, buf[n..]).0, Parse(l, buf[n..]).1)
  {
    if |buf| >= 24 {
      ParseByLength(l, buf, 20);
    }
  }

  /** ... and the third: 28 bytes, and the bytes 24 to 27. */
  lemma YsKcpParseExactly(l: Layout, buf: Chunk)
    requires l == YS_KCP
    ensures |buf| < 28 ==> Parse(l, buf) == ([], buf)
    ensures |buf| >= 28 ==>
      var n := 28 + Value(buf[24], buf[25], buf[26], buf[27]);
      if |buf| < n then Parse(l, buf) == ([], buf)
      else Parse(l, buf) == ([buf[..n]] + Parse(l, buf[n..]).0, Parse(l, buf[n..]).1)
  {
    if |buf| >= 28 {
      ParseByLength(l, buf, 24);
    }
  }
}
