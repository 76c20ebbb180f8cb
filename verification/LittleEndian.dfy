/** Numbers as little-endian bytes. */
module LittleEndian {

  type Byte = x: int | 0 <= x < 256

  /** The number written in little-endian bytes. */
  function LeValue(s: seq<Byte>): nat {
    if s == [] then 0 else s[0] as int + 256 * LeValue(s[1..])
  }

  function Le(n: nat, width: nat): (s: seq<Byte>)
    ensures |s| == width
  {
    if width == 0 then [] else [n % 256] + Le(n / 256, width - 1)
  }

  ghost function Capacity(width: nat): nat {
    if width == 0 then 1 else 256 * Capacity(width - 1)
  }

  lemma {:induction false} LeRoundTrip(n: nat, width: nat)
    requires n < Capacity(width)
    ensures LeValue(Le(n, width)) == n
  {
    if width > 0 { LeRoundTrip(n / 256, width - 1); }
  }

  lemma Capacities()
    ensures Capacity(2) == 0x10000 && Capacity(4) == 0x1_0000_0000
  {
    assert Capacity(1) == 256;
    assert Capacity(3) == 256 * Capacity(2);
  }
}
