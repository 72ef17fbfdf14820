/** Byte chunks, the unit every queue of the bridge carries. An empty chunk is the in-band end marker. */
module Chunks {
  newtype byte = x: int | 0 <= x < 0x100
  type Chunk = seq<byte>

  datatype Option<+T> = None | Some(value: T)

  /** The zero or one elements an option holds. */
  function Opt<T>(o: Option<T>): seq<T> {
    if o.None? then [] else [o.value]
  }

  function Min(a: nat, b: nat): nat {
    if a <= b then a else b
  }

  /** The bytes of a list of chunks; end markers contribute none. */
  function Flatten(cs: seq<Chunk>): Chunk {
    if cs == [] then [] else cs[0] + Flatten(cs[1..])
  }

  lemma {:induction false} FlattenConcat(a: seq<Chunk>, b: seq<Chunk>)
    ensures Flatten(a + b) == Flatten(a) + Flatten(b)
  {
    if a == [] {
      assert a + b == b;
    } else {
      assert (a + b)[1..] == a[1..] + b;
      FlattenConcat(a[1..], b);
    }
  }

  lemma Assoc<T>(a: seq<T>, b: seq<T>, c: seq<T>)
    ensures (a + b) + c == a + (b + c)
  {
  }

  lemma FlattenCons(c: Chunk, cs: seq<Chunk>)
    ensures Flatten([c] + cs) == c + Flatten(cs)
  {
    assert ([c] + cs)[1..] == cs;
  }

  lemma FlattenOne(c: Chunk)
    ensures Flatten([c]) == c
  {
    assert [c][1..] == [];
  }

  /** Appending one chunk appends its bytes. */
  lemma FlattenSnoc(cs: seq<Chunk>, c: Chunk)
    ensures Flatten(cs + [c]) == Flatten(cs) + c
  {
    FlattenConcat(cs, [c]);
    FlattenOne(c);
  }

  /** At most the first `n` bytes. */
  function Upto(bytes: Chunk, n: nat): (r: Chunk)
    ensures r <= bytes && |r| == Min(|bytes|, n)
  {
    if |bytes| <= n then bytes else bytes[..n]
  }

  lemma UptoPrefix(a: Chunk, b: Chunk, n: nat)
    requires |a| > n
    ensures Upto(a + b, n) == Upto(a, n)
  {
  }

  /** When neither part is longer on the left, the wholes are equal exactly when the parts are. */
  lemma AppendsExactly<T>(a: seq<T>, x: seq<T>, b: seq<T>, y: seq<T>)
    requires |a| <= |b| && |x| <= |y|
    ensures a + x == b + y <==> a == b && x == y
  {
    if a + x == b + y {
      assert |a + x| == |b + y|;
      assert (a + x)[..|a|] == a && (b + y)[..|b|] == b;
      assert (a + x)[|a|..] == x && (b + y)[|b|..] == y;
    }
  }

  function OptCount<T(==)>(o: Option<T>, x: T): nat {
    if o.Some? && o.value == x then 1 else 0
  }

  /** How often `x` occurs in `s`. */
  function Count<T(==)>(s: seq<T>, x: T): nat {
    if s == [] then 0 else (if s[0] == x then 1 else 0) + Count(s[1..], x)
  }

  lemma {:induction false} CountSnoc<T>(s: seq<T>, y: T, x: T)
    ensures Count(s + [y], x) == Count(s, x) + if y == x then 1 else 0
  {
    if s == [] {
      assert s + [y] == [y];
    } else {
      assert (s + [y])[1..] == s[1..] + [y];
      CountSnoc(s[1..], y, x);
    }
  }

  /** `a` can be obtained from `b` by deleting elements. */
  predicate Subsequence<T(==)>(a: seq<T>, b: seq<T>) {
    if a == [] then true
    else if b == [] then false
    else if a[|a| - 1] == b[|b| - 1] && Subsequence(a[..|a| - 1], b[..|b| - 1]) then true
    else Subsequence(a, b[..|b| - 1])
  }
}
