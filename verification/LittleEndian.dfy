/** Unsigned 32-bit integers as four little-endian bytes. */
module LittleEndian {
  import opened Chunks

  const U32: nat := 0x1_0000_0000

  function FromLe(b: Chunk): nat
    requires |b| == 4
  {
    b[0] as nat + 0x100 * b[1] as nat + 0x1_0000 * b[2] as nat + 0x100_0000 * b[3] as nat
  }

  function ToLe(n: nat): (b: Chunk)
    requires n < U32
    ensures |b| == 4
  {
    var m := n / 0x100;
    var k := m / 0x100;
    [(n % 0x100) as byte, (m % 0x100) as byte, (k % 0x100) as byte, (k / 0x100) as byte]
  }

  lemma FromTo(n: nat)
    requires n < U32
    ensures FromLe(ToLe(n)) == n
  {
  }
}
