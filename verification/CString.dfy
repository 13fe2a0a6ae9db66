/** The C library's memory functions. */
module CString {
  import opened Bytes

  /** Copies n octets from src to dst; the two ranges may overlap. */
  method MemMove(a: array<byte>, dst: nat, src: nat, n: nat)
    requires dst + n <= a.Length && src + n <= a.Length
    modifies a
    ensures forall j :: dst <= j < dst + n ==> a[j] == old(a[..])[src + (j - dst)]
    ensures forall j :: 0 <= j < a.Length && !(dst <= j < dst + n) ==> a[j] == old(a[j])
  {
    ghost var was := a[..];
    if dst <= src {
      for i := 0 to n
        invariant forall j :: dst <= j < dst + i ==> a[j] == was[src + (j - dst)]
        invariant forall j :: 0 <= j < a.Length && !(dst <= j < dst + i) ==> a[j] == was[j]
      {
        a[dst + i] := a[src + i];
      }
    } else {
      for i := n downto 0
        invariant forall j :: dst + i <= j < dst + n ==> a[j] == was[src + (j - dst)]
        invariant forall j :: 0 <= j < a.Length && !(dst + i <= j < dst + n) ==> a[j] == was[j]
      {
        a[dst + i] := a[src + i];
      }
    }
  }

  method MemSet(a: array<byte>, dst: nat, v: byte, n: nat)
    requires dst + n <= a.Length
    modifies a
    ensures forall j :: dst <= j < dst + n ==> a[j] == v
    ensures forall j :: 0 <= j < a.Length && !(dst <= j < dst + n) ==> a[j] == old(a[j])
  {
    for i := 0 to n
      invariant forall j :: dst <= j < dst + i ==> a[j] == v
      invariant forall j :: 0 <= j < a.Length && !(dst <= j < dst + i) ==> a[j] == old(a[j])
    {
      a[dst + i] := v;
    }
  }

  /** Copies n octets between two memory areas. */
  method MemCopy(dst: array<byte>, at: nat, src: array<byte>, from: nat, n: nat)
    requires dst != src && at + n <= dst.Length && from + n <= src.Length
    modifies dst
    ensures forall j :: at <= j < at + n ==> dst[j] == src[from + (j - at)]
    ensures forall j :: 0 <= j < dst.Length && !(at <= j < at + n) ==> dst[j] == old(dst[j])
  {
    for i := 0 to n
      invariant forall j :: at <= j < at + i ==> dst[j] == src[from + (j - at)]
      invariant forall j :: 0 <= j < dst.Length && !(at <= j < at + i) ==> dst[j] == old(dst[j])
    {
      dst[at + i] := src[from + i];
    }
  }

  /** area with the octets written at the offset. */
  function Written(area: seq<byte>, at: nat, octets: seq<byte>): (r: seq<byte>)
    requires at + |octets| <= |area|
    ensures |r| == |area|
  {
    area[..at] + octets + area[at + |octets|..]
  }

  /** The octets stand at the offset, and everything before and behind them is as it was. */
  lemma WrittenIs(area: seq<byte>, at: nat, octets: seq<byte>)
    requires at + |octets| <= |area|
    ensures var r := Written(area, at, octets);
            && r[..at] == area[..at] && r[at..at + |octets|] == octets && r[at + |octets|..] == area[at + |octets|..]
  {
  }

  lemma WrittenNothing(area: seq<byte>, at: nat)
    requires at <= |area|
    ensures Written(area, at, []) == area
  {
  }

  /** Writing on where the last writing ended. */
  lemma WrittenOn(area: seq<byte>, at: nat, first: seq<byte>, second: seq<byte>)
    requires at + |first| + |second| <= |area|
    ensures Written(Written(area, at, first), at + |first|, second) == Written(area, at, first + second)
  {
  }

  /** Writes the octets at the offset. */
  method MemPut(dst: array<byte>, at: nat, octets: seq<byte>)
    requires at + |octets| <= dst.Length
    modifies dst
    ensures dst[..] == Written(old(dst[..]), at, octets)
  {
    for i := 0 to |octets|
      invariant forall j :: at <= j < at + i ==> dst[j] == octets[j - at]
      invariant forall j :: 0 <= j < dst.Length && !(at <= j < at + i) ==> dst[j] == old(dst[j])
    {
      dst[at + i] := octets[i];
    }
  }
}
