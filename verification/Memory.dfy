/** The byte buffer cmemory: editing in place, and the order that lets addresses be map keys. */
module Memory {
  import opened Bytes
  import opened CString

  // ---- what the edits mean on octet strings -----------------------------------------------------

  /** resize: cut off at the end, or fill up with zeros. */
  function Resized(s: seq<byte>, n: nat): (r: seq<byte>)
    ensures |r| == n
    ensures forall i :: 0 <= i < n ==> r[i] == if i < |s| then s[i] else 0
  {
    if n <= |s| then s[..n] else s + Zeros(n - |s|)
  }

  function Inserted(s: seq<byte>, offset: nat, n: nat): seq<byte>
    requires offset <= |s|
  {
    s[..offset] + Zeros(n) + s[offset..]
  }

  /** remove: as many octets as there are, from offset on. */
  function Removed(s: seq<byte>, offset: nat, n: nat): (r: seq<byte>)
    requires offset <= |s|
    ensures |r| == if offset + n <= |s| then |s| - n else offset
  {
    if offset + n <= |s| then s[..offset] + s[offset + n..] else s[..offset]
  }

  /** memmove, said of the whole area. */
  method Slide(a: array<byte>, dst: nat, src: nat, n: nat)
    requires dst + n <= a.Length && src + n <= a.Length
    modifies a
    ensures a[..] == old(a[..dst] + a[src..src + n] + a[dst + n..])
  {
    MemMove(a, dst, src, n);
  }

  lemma SlidIsRemoved(was: seq<byte>, slid: seq<byte>, offset: nat, m: nat, len: nat)
    requires offset <= len && len + m <= |was|
    requires slid == was[..offset] + was[offset + m..len + m] + was[len..]
    ensures slid[..len] == Removed(was[..len + m], offset, m)
  {
    var s := was[..len + m];
    assert s[..offset] == was[..offset] && s[offset + m..] == was[offset + m..len + m];
  }

  lemma RemovedAtMost(s: seq<byte>, offset: nat, n: nat, m: nat)
    requires offset <= |s| && m == if offset + n > |s| then |s| - offset else n
    ensures Removed(s, offset, n) == Removed(s, offset, m)
  {
  }

  /** Removing what was inserted gives the octets back; inserting the zeros that were removed does so
      exactly when zeros is what was there. */
  lemma RemoveUndoesInsert(s: seq<byte>, offset: nat, n: nat)
    requires offset <= |s|
    ensures Removed(Inserted(s, offset, n), offset, n) == s
    ensures offset + n <= |s| ==>
              (Inserted(Removed(s, offset, n), offset, n) == s <==> s[offset..offset + n] == Zeros(n))
  {
    var t := Inserted(s, offset, n);
    assert t[..offset] == s[..offset] && t[offset + n..] == s[offset..];
    if offset + n <= |s| {
      var r := Removed(s, offset, n);
      assert s == s[..offset] + s[offset..offset + n] + s[offset + n..];
      assert r[..offset] == s[..offset] && r[offset..] == s[offset + n..];
      var u := Inserted(r, offset, n);
      assert u == s[..offset] + Zeros(n) + s[offset + n..];
      assert u[offset..offset + n] == Zeros(n);
    }
  }

  // ---- the order --------------------------------------------------------------------------------

  /** memcmp on strings of one length: the first differing octet decides. */
  function Compare(a: seq<byte>, b: seq<byte>): (c: int)
    requires |a| == |b|
  {
    if a == [] then 0
    else if a[0] != b[0] then a[0] as int - b[0] as int
    else Compare(a[1..], b[1..])
  }

  /** operator<: the shorter string first, then memcmp. */
  predicate Less(a: seq<byte>, b: seq<byte>) {
    |a| < |b| || (|a| == |b| && Compare(a, b) < 0)
  }

  lemma {:induction false} CompareZero(a: seq<byte>, b: seq<byte>)
    requires |a| == |b|
    ensures Compare(a, b) == 0 <==> a == b
    ensures Compare(a, b) < 0 <==> Compare(b, a) > 0
  {
    if a != [] {
      assert a == [a[0]] + a[1..] && b == [b[0]] + b[1..];
      CompareZero(a[1..], b[1..]);
    }
  }

  lemma {:induction false} CompareTransitive(a: seq<byte>, b: seq<byte>, c: seq<byte>)
    requires |a| == |b| == |c| && Compare(a, b) < 0 && Compare(b, c) < 0
    ensures Compare(a, c) < 0
  {
    if a != [] && a[0] == b[0] == c[0] {
      CompareTransitive(a[1..], b[1..], c[1..]);
    }
  }

  /** operator< is a strict total order whose equivalence is equality: exactly one of a < b, a == b and
      b < a holds, and it is transitive. A std::map with such keys tells any two addresses apart. */
  lemma StrictTotalOrder(a: seq<byte>, b: seq<byte>, c: seq<byte>)
    ensures !Less(a, a)
    ensures a == b || Less(a, b) || Less(b, a)
    ensures !(Less(a, b) && Less(b, a))
    ensures Less(a, b) && Less(b, c) ==> Less(a, c)
  {
    CompareZero(a, a);
    if |a| == |b| {
      CompareZero(a, b);
      CompareZero(b, a);
      if |b| == |c| && Less(a, b) && Less(b, c) {
        CompareTransitive(a, b, c);
      }
    }
  }

  /** a is the shorter, or of one length with b and smaller in the first octet in which they differ. */
  predicate Precedes(a: seq<byte>, b: seq<byte>) {
    |a| < |b| || (|a| == |b| && exists k :: 0 <= k < |a| && a[..k] == b[..k] && a[k] < b[k])
  }

  lemma {:induction false} CompareIs(a: seq<byte>, b: seq<byte>)
    requires |a| == |b|
    ensures Compare(a, b) < 0 <==> exists k :: 0 <= k < |a| && a[..k] == b[..k] && a[k] < b[k]
  {
    if a != [] {
      CompareIs(a[1..], b[1..]);
      if a[0] != b[0] {
        assert a[..0] == b[..0] && forall k :: 0 < k < |a| ==> a[..k][0] != b[..k][0];
      } else {
        if k :| 0 <= k < |a| - 1 && a[1..][..k] == b[1..][..k] && a[1..][k] < b[1..][k] {
          assert a[..k + 1] == [a[0]] + a[1..][..k] == b[..k + 1] && a[k + 1] < b[k + 1];
        }
        if k :| 0 <= k < |a| && a[..k] == b[..k] && a[k] < b[k] {
          assert k > 0 && a[1..][..k - 1] == a[..k][1..] == b[..k][1..] == b[1..][..k - 1];
          assert a[1..][k - 1] < b[1..][k - 1];
        }
      }
    }
  }

  /** operator< puts the shorter memory first, and of two of one length the one with the smaller octet where they
      first differ. */
  lemma LessIff(a: seq<byte>, b: seq<byte>)
    ensures Less(a, b) <==> Precedes(a, b)
  {
    if |a| == |b| {
      CompareIs(a, b);
    }
  }

  // ---- the buffer -------------------------------------------------------------------------------

  class Cmemory {
    // the allocation, which remove leaves larger than the memory
    var buf: array<byte>
    var len: nat

    ghost predicate Valid()
      reads this
    {
      len <= buf.Length
    }

    ghost function Octets(): seq<byte>
      reads this, buf
      requires Valid()
    {
      buf[..len]
    }

    constructor (n: nat)
      ensures Valid() && fresh(buf) && Octets() == Zeros(n)
    {
      buf := new byte[n](_ => 0);
      len := n;
    }

    method Resize(n: nat)
      requires Valid()
      modifies this
      ensures Valid() && fresh(buf) && Octets() == Resized(old(Octets()), n)
    {
      var p := new byte[n](_ => 0);
      MemCopy(p, 0, buf, 0, if n < len then n else len);
      buf := p;
      len := n;
    }

    /** eMemInval when offset lies beyond the end. */
    method Insert(offset: nat, n: nat) returns (ok: bool)
      requires Valid()
      modifies this
      ensures Valid() && (ok <==> offset <= old(len))
      ensures if ok then fresh(buf) && Octets() == Inserted(old(Octets()), offset, n)
              else buf == old(buf) && len == old(len)
    {
      if offset > len {
        return false;
      }
      var p := new byte[len + n](_ => 0);
      MemCopy(p, 0, buf, 0, offset);
      MemCopy(p, offset + n, buf, offset, len - offset);
      buf := p;
      len := len + n;
      return true;
    }

    /** Moves the octets behind the hole down and clears what they left behind; no new allocation. The
        source does not check the offset: beyond the end it leaves the memory, and what it does there is
        not said. */
    method Remove(offset: nat, n: nat) returns (inside: bool)
      requires Valid()
      modifies this, buf
      ensures Valid() && buf == old(buf) && (inside <==> offset <= old(len))
      ensures inside ==> Octets() == Removed(old(Octets()), offset, n)
      ensures inside ==> forall k :: len <= k < old(len) ==> buf[k] == 0
    {
      hide Removed;
      if offset > len {
        return false;
      }
      var m := if offset + n > len then len - offset else n;
      SlideOut(offset, m);
      RemovedAtMost(old(buf[..len]), offset, n, m);
      return true;
    }

    /** The octets behind a hole of m octets move down over it. */
    method SlideOut(offset: nat, m: nat)
      requires Valid() && offset + m <= len
      modifies this, buf
      ensures Valid() && buf == old(buf) && len == old(len) - m
      ensures buf[..len] == Removed(old(buf[..len]), offset, m)
      ensures forall k :: len <= k < old(len) ==> buf[k] == 0
    {
      hide Removed;
      ghost var was := buf[..];
      Slide(buf, offset, offset + m, len - (offset + m));
      ghost var slid := buf[..];
      MemSet(buf, len - m, 0, m);
      len := len - m;
      assert buf[..len] == slid[..len];
      SlidIsRemoved(was, slid, offset, m, len);
    }

    /** The pointer form refuses a pointer outside the memory, and a range that reaches the last octet. */
    method RemoveRange(offset: int, n: nat) returns (ok: bool)
      requires Valid()
      modifies this, buf
      ensures Valid() && buf == old(buf) && (ok <==> 0 <= offset && offset + n < old(len))
      ensures Octets() == if ok then Removed(old(Octets()), offset, n) else old(Octets())
    {
      if !(0 <= offset < len) || !(0 <= offset + n < len) {
        return false;
      }
      var inside := Remove(offset, n);
      return true;
    }

    /** operator+=. A memory that is not empty, appended to itself, is copied at twice the length that room was
        made for; what that does is not said. */
    method Append(m: Cmemory) returns (inside: bool)
      requires Valid() && m.Valid() && (m != this ==> m.buf != buf)
      modifies this
      ensures Valid() && (inside <==> m != this || old(len) == 0)
      ensures inside ==> fresh(buf) && Octets() == old(Octets()) + old(m.Octets())
    {
      if m == this && len > 0 {
        return false;
      }
      var offset := len;
      Resize(len + m.len);
      if m != this {
        MemCopy(buf, offset, m.buf, 0, m.len);
      }
      return true;
    }

    method LessThan(m: Cmemory) returns (less: bool)
      requires Valid() && m.Valid()
      ensures less <==> Less(Octets(), m.Octets())
    {
      if len != m.len {
        return len < m.len;
      }
      var i := 0;
      while i < len
        invariant 0 <= i <= len
        invariant Compare(Octets(), m.Octets()) == Compare(buf[i..len], m.buf[i..len])
      {
        if buf[i] != m.buf[i] {
          return buf[i] < m.buf[i];
        }
        assert buf[i..len][1..] == buf[i + 1..len] && m.buf[i..len][1..] == m.buf[i + 1..len];
        i := i + 1;
      }
      return false;
    }
  }
}
