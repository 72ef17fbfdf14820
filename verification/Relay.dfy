/** The copy loops: `relay` from a reader to a writer, and the echo of a connection back to itself. */
module Relay {
  import opened Chunks

  const BUFFER: nat := 8192
  const U64: nat := 0x1_0000_0000_0000_0000

  // ----- What a run of arrivals amounts to -----

  /** The bytes that arrive before the first empty read. */
  function Before(arrivals: seq<Chunk>): Chunk {
    if arrivals == [] || arrivals[0] == [] then [] else arrivals[0] + Before(arrivals[1..])
  }

  /** The arrivals are followed by the end of the stream or contain an empty read; not by an error. */
  predicate EndsCleanly(arrivals: seq<Chunk>, broken: bool) {
    [] in arrivals || !broken
  }

  /** `Before` are the bytes of the arrivals up to the first empty one, or of all of them. */
  lemma {:induction false} BeforeExactly(arrivals: seq<Chunk>, k: nat)
    requires k <= |arrivals| && [] !in arrivals[..k] && (k < |arrivals| ==> arrivals[k] == [])
    ensures Before(arrivals) == Flatten(arrivals[..k])
  {
    if k == 0 {
    } else {
      assert arrivals[..k][0] == arrivals[0] && arrivals[..k][1..] == arrivals[1..][..k - 1];
      BeforeExactly(arrivals[1..], k - 1);
    }
  }

  /** An arrival that does not fit the buffer is read in pieces. */
  function Split(arrivals: seq<Chunk>, room: nat): seq<Chunk> {
    if arrivals == [] || |arrivals[0]| <= room then arrivals
    else [arrivals[0][..room]] + ([arrivals[0][room..]] + arrivals[1..])
  }

  lemma BeforeCons(c: Chunk, arrivals: seq<Chunk>)
    requires c != []
    ensures Before([c] + arrivals) == c + Before(arrivals)
    ensures [] in [c] + arrivals <==> [] in arrivals
  {
    assert ([c] + arrivals)[1..] == arrivals;
  }

  /** Splitting an arrival changes neither the bytes nor how they end. */
  lemma SplitKeeps(arrivals: seq<Chunk>, room: nat)
    requires 0 < room
    ensures Before(Split(arrivals, room)) == Before(arrivals)
    ensures [] in Split(arrivals, room) <==> [] in arrivals
  {
    if arrivals != [] && |arrivals[0]| > room {
      var a, b, tail := arrivals[0][..room], arrivals[0][room..], arrivals[1..];
      BeforeCons(a, [b] + tail);
      BeforeCons(b, tail);
      BeforeCons(a + b, tail);
      Assoc(a, b, Before(tail));
      assert a + b == arrivals[0];
      assert arrivals == [a + b] + tail;
    }
  }

  // ----- Readers and writers -----

  /** What arrives at a reader, and whether an error or the end of the stream follows. */
  class Source {
    var arrivals: seq<Chunk>
    const broken: bool

    constructor (arrivals: seq<Chunk>, broken: bool)
      ensures this.arrivals == arrivals && this.broken == broken
    {
      this.arrivals, this.broken := arrivals, broken;
    }

    /** The next bytes, at most `room`; none for an error. */
    method Read(room: nat) returns (r: Option<Chunk>)
      modifies this
      ensures var parts := Split(old(arrivals), room);
        && r == (if parts != [] then Some(parts[0]) else if broken then None else Some([]))
        && arrivals == (if parts != [] then parts[1..] else [])
    {
      var parts := Split(arrivals, room);
      if parts == [] {
        r := if broken then None else Some([]);
      } else {
        r := Some(parts[0]);
        arrivals := parts[1..];
      }
    }
  }

  /** A writer that takes `budget` bytes in all; `flushFails` answers the n-th flush. */
  class Sink {
    const budget: nat
    const flushFails: nat -> bool
    var out: Chunk
    var flushes: nat

    constructor (budget: nat, flushFails: nat -> bool)
      ensures this.budget == budget && this.flushFails == flushFails && out == [] && flushes == 0
    {
      this.budget, this.flushFails := budget, flushFails;
      out, flushes := [], 0;
    }

    ghost predicate Flushed()
      reads this
    {
      forall k | 0 <= k < flushes :: !flushFails(k)
    }

    method WriteAll(bytes: Chunk) returns (ok: bool)
      requires |out| <= budget
      modifies this`out
      ensures ok <==> |old(out) + bytes| <= budget
      ensures out == Upto(old(out) + bytes, budget)
    {
      ok := |bytes| <= budget - |out|;
      out := out + if ok then bytes else bytes[..budget - |out|];
    }

    method Flush() returns (ok: bool)
      modifies this`flushes
      ensures flushes == old(flushes) + 1 && ok == !flushFails(old(flushes))
    {
      ok := !flushFails(flushes);
      flushes := flushes + 1;
    }

    /** One pass: all of `bytes`, then, if they fit, exactly one flush. */
    method PassOn(bytes: Chunk) returns (ok: bool)
      requires |out| <= budget && Flushed()
      modifies this
      ensures out == Upto(old(out) + bytes, budget)
      ensures flushes == old(flushes) + if |old(out) + bytes| <= budget then 1 else 0
      ensures ok <==> |old(out) + bytes| <= budget && !flushFails(old(flushes))
      ensures ok ==> Flushed()
    {
      ok := WriteAll(bytes);
      if ok {
        ok := Flush();
      }
    }
  }

  /** How a copy of `arrivals` left the writer: with a prefix of them, all of them as far as it takes bytes unless a
      flush failed; `done` exactly when they end cleanly, fit, and every flush worked. */
  ghost predicate IsCopy(arrivals: seq<Chunk>, broken: bool, sink: Sink, done: bool)
    reads sink
  {
    && sink.out <= Before(arrivals)
    && (sink.Flushed() ==> sink.out == Upto(Before(arrivals), sink.budget))
    && (done <==> EndsCleanly(arrivals, broken) && |Before(arrivals)| <= sink.budget && sink.Flushed())
  }

  /** What is still to be copied, with `out` copied. */
  ghost predicate Copying(arrivals: seq<Chunk>, broken: bool, out: Chunk, rest: seq<Chunk>) {
    && Before(arrivals) == out + Before(rest)
    && (EndsCleanly(arrivals, broken) <==> EndsCleanly(rest, broken))
  }

  lemma CopyOne(arrivals: seq<Chunk>, broken: bool, out: Chunk, rest: seq<Chunk>)
    requires Copying(arrivals, broken, out, rest)
    ensures var parts := Split(rest, BUFFER);
      && (parts != [] && parts[0] != [] ==> Copying(arrivals, broken, out + parts[0], parts[1..]))
      && (parts == [] || parts[0] == [] ==> Before(arrivals) == out)
      && (parts == [] && broken ==> !EndsCleanly(arrivals, broken))
      && (parts != [] && parts[0] == [] ==> EndsCleanly(arrivals, broken))
  {
    var parts := Split(rest, BUFFER);
    SplitKeeps(rest, BUFFER);
    if parts != [] {
      Assoc(out, parts[0], Before(parts[1..]));
      assert parts == [parts[0]] + parts[1..];
    }
    assert out + [] == out;
  }

  lemma StoppedShort(arrivals: seq<Chunk>, out: Chunk, more: Chunk, budget: nat)
    requires Before(arrivals) == out + more
    ensures Upto(out, budget) <= Before(arrivals)
    ensures |out| > budget ==> Upto(Before(arrivals), budget) == Upto(out, budget) && |Before(arrivals)| > budget
  {
    if |out| > budget {
      UptoPrefix(out, more, budget);
    }
  }

  /** How many non-empty reads of at most 8192 bytes the arrivals before the first empty one make. */
  function Pieces(arrivals: seq<Chunk>): (n: nat)
    ensures Before(arrivals) != [] ==> n > 0
  {
    if arrivals == [] || arrivals[0] == [] then 0 else (|arrivals[0]| + 8191) / 8192 + Pieces(arrivals[1..])
  }

  lemma OnePiece(arrivals: seq<Chunk>)
    requires arrivals != [] && arrivals[0] != []
    ensures var parts := Split(arrivals, BUFFER);
      && |parts[0]| == Min(|arrivals[0]|, 8192) && parts[0] != []
      && Pieces(parts[1..]) + 1 == Pieces(arrivals)
  {
    if |arrivals[0]| > BUFFER {
      var b, tail := arrivals[0][BUFFER..], arrivals[1..];
      assert Split(arrivals, BUFFER)[1..] == [b] + tail && ([b] + tail)[1..] == tail;
    }
  }

  datatype Pass = Copied(n: nat) | Ended | Failed

  /** One pass of a copy loop: a read of at most 8192 bytes, written and flushed. */
  method CopyPass(source: Source, sink: Sink, ghost arrivals: seq<Chunk>) returns (r: Pass)
    requires |sink.out| <= sink.budget && sink.Flushed()
    requires Copying(arrivals, source.broken, sink.out, source.arrivals)
    modifies source, sink
    ensures r.Copied? ==>
      && |sink.out| <= sink.budget && sink.Flushed() && |sink.out| == |old(sink.out)| + r.n
      && Copying(arrivals, source.broken, sink.out, source.arrivals)
      && Size(source.arrivals) < Size(old(source.arrivals))
    ensures r.Copied? ==>
      && old(source.arrivals) != [] && r.n == Min(|old(source.arrivals)[0]|, 8192)
      && sink.flushes == old(sink.flushes) + 1 && Pieces(source.arrivals) + 1 == Pieces(old(source.arrivals))
    ensures !r.Copied? ==> IsCopy(arrivals, source.broken, sink, r.Ended?)
    ensures r.Ended? ==>
      sink.out == old(sink.out) && sink.flushes == old(sink.flushes) && Pieces(old(source.arrivals)) == 0
  {
    ghost var out := sink.out;
    if source.arrivals != [] && source.arrivals[0] != [] {
      OnePiece(source.arrivals);
    }
    CopyOne(arrivals, source.broken, out, source.arrivals);
    SplitShrinks(source.arrivals);
    var bytes := source.Read(BUFFER);
    if bytes.None? {
      return Failed;
    }
    if bytes.value == [] {
      return Ended;
    }
    StoppedShort(arrivals, out + bytes.value, Before(source.arrivals), sink.budget);
    var ok := sink.PassOn(bytes.value);
    r := if ok then Copied(|bytes.value|) else Failed;
  }

  lemma CountWraps(a: nat, b: nat)
    ensures (a % U64 + b) % U64 == (a + b) % U64
  {
    assert a + b == a % U64 + b + U64 * (a / U64);
  }

  /** Copies until an empty read, an error of the reader or one of the writer. A completed copy reports its length as
      a 64-bit count. */
  method Relay(source: Source, sink: Sink) returns (done: bool, total: nat)
    requires sink.out == [] && sink.flushes == 0
    modifies source, sink
    ensures IsCopy(old(source.arrivals), source.broken, sink, done)
    ensures done ==> total == |sink.out| % 0x1_0000_0000_0000_0000
    ensures done ==> sink.flushes == Pieces(old(source.arrivals))
    ensures done && Before(old(source.arrivals)) != [] ==> sink.flushes > 0 && !sink.flushFails(0)
  {
    total := 0;
    while true
      invariant |sink.out| <= sink.budget && sink.Flushed() && total == |sink.out| % U64
      invariant Copying(old(source.arrivals), source.broken, sink.out, source.arrivals)
      invariant sink.flushes + Pieces(source.arrivals) == Pieces(old(source.arrivals))
      decreases Size(source.arrivals)
    {
      var r := CopyPass(source, sink, old(source.arrivals));
      if !r.Copied? {
        return r.Ended?, total;
      }
      CountWraps(|sink.out| - r.n, r.n);
      total := (total + r.n) % U64;
    }
  }

  /** The loop of `handle_connection` without an upstream: everything read before the first empty read goes back. */
  method Echo(source: Source, sink: Sink) returns (done: bool)
    requires sink.out == [] && sink.flushes == 0
    modifies source, sink
    ensures IsCopy(old(source.arrivals), source.broken, sink, done)
    ensures done ==> sink.flushes == Pieces(old(source.arrivals))
    ensures done && Before(old(source.arrivals)) != [] ==> sink.flushes > 0 && !sink.flushFails(0)
  {
    while true
      invariant |sink.out| <= sink.budget && sink.Flushed()
      invariant Copying(old(source.arrivals), source.broken, sink.out, source.arrivals)
      invariant sink.flushes + Pieces(source.arrivals) == Pieces(old(source.arrivals))
      decreases Size(source.arrivals)
    {
      var r := CopyPass(source, sink, old(source.arrivals));
      if !r.Copied? {
        return r.Ended?;
      }
    }
  }

  function Size(arrivals: seq<Chunk>): nat {
    if arrivals == [] then 0 else 1 + |arrivals[0]| + Size(arrivals[1..])
  }

  lemma SplitShrinks(arrivals: seq<Chunk>)
    ensures var parts := Split(arrivals, BUFFER); parts != [] ==> Size(parts[1..]) < Size(arrivals)
  {
    if arrivals != [] && |arrivals[0]| > BUFFER {
      var b, tail := arrivals[0][BUFFER..], arrivals[1..];
      assert Split(arrivals, BUFFER)[1..] == [b] + tail && ([b] + tail)[1..] == tail;
    }
  }
}
