/** Octets and the big-endian fields that the protocol and OpenFlow headers are made of. */
module Bytes {

  type byte = x: int | 0 <= x < 0x100

  /** The 16-bit big-endian field at offset i. */
  function U16(s: seq<byte>, i: nat): (v: int)
    requires i + 2 <= |s|
    ensures 0 <= v < 0x1_0000
  {
    s[i] as int * 0x100 + s[i + 1]
  }

  /** s with the 16-bit big-endian field at offset i replaced by v. */
  function PutU16(s: seq<byte>, i: nat, v: int): (r: seq<byte>)
    requires i + 2 <= |s|
    requires 0 <= v < 0x1_0000
    ensures |r| == |s|
    ensures U16(r, i) == v
    ensures forall j :: 0 <= j < |s| && j != i && j != i + 1 ==> r[j] == s[j]
  {
    s[i := v / 0x100][i + 1 := v % 0x100]
  }

  /** A 16-bit field determines its two octets. */
  lemma U16Injective(s: seq<byte>, t: seq<byte>, i: nat, j: nat)
    requires i + 2 <= |s| && j + 2 <= |t|
    ensures U16(s, i) == U16(t, j) <==> s[i] == t[j] && s[i + 1] == t[j + 1]
  {
  }

  /** The 32-bit big-endian field at offset i. */
  function U32(s: seq<byte>, i: nat): (v: int)
    requires i + 4 <= |s|
    ensures 0 <= v < 0x1_0000_0000
  {
    U16(s, i) * 0x1_0000 + U16(s, i + 2)
  }

  function Be16(v: int): (r: seq<byte>)
    requires 0 <= v < 0x1_0000
    ensures |r| == 2 && U16(r, 0) == v
  {
    [v / 0x100, v % 0x100]
  }

  function Be32(v: int): (r: seq<byte>)
    requires 0 <= v < 0x1_0000_0000
    ensures |r| == 4 && U32(r, 0) == v
  {
    Be16(v / 0x1_0000) + Be16(v % 0x1_0000)
  }

  function Zeros(n: nat): (r: seq<byte>)
    ensures |r| == n && forall i :: 0 <= i < n ==> r[i] == 0
  {
    seq(n, _ => 0)
  }
}
