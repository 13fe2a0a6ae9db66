/** The packet object: a memory area with headroom, the packet in it, and the doubly linked list of
    frames. Each method is tied to the function on values that says what it computes. */
module Cpacket {
  import opened Bytes
  import opened CString
  import opened Wrappers
  import opened Headers
  import opened Tags

  /** A parsed header: where its octets lie in the packet's memory, and its neighbours in the list. */
  class Fframe {
    const kind: Kind
    var off: nat
    var len: nat
    var next: Fframe?
    var prev: Fframe?

    constructor (kind: Kind, off: nat, len: nat)
      ensures this.kind == kind && this.off == off && this.len == len && next == null && prev == null
    {
      this.kind, this.off, this.len, next, prev := kind, off, len, null, null;
    }

    function Value(): Header
      reads this
    {
      Header(kind, off, len)
    }
  }

  ghost function ValuesOf(fs: seq<Fframe>): (hs: seq<Header>)
    reads fs
    ensures |hs| == |fs|
    ensures forall i :: 0 <= i < |hs| ==> hs[i] == fs[i].Value()
  {
    if fs == [] then [] else [fs[0].Value()] + ValuesOf(fs[1..])
  }

  lemma ValuesCons(f: Fframe, fs: seq<Fframe>)
    ensures ValuesOf([f] + fs) == [f.Value()] + ValuesOf(fs)
    ensures ValuesOf([f] + fs)[1..] == ValuesOf(fs)
  {
    assert ([f] + fs)[1..] == fs;
  }

  /** hs with h put second. */
  function Second(hs: seq<Header>, h: Header): seq<Header>
    requires hs != []
  {
    [hs[0]] + ([h] + hs[1..])
  }

  twostate lemma SecondValue(fs: seq<Fframe>, new frame: Fframe)
    requires fs != []
    requires forall f <- fs :: f.Value() == old(f.Value())
    ensures ValuesOf([fs[0]] + ([frame] + fs[1..])) == Second(old(ValuesOf(fs)), frame.Value())
  {
    hide ValuesOf;
    SameValues(fs);
    SecondOf(fs, frame);
  }

  twostate lemma SameValues(fs: seq<Fframe>)
    requires forall f <- fs :: f.Value() == old(f.Value())
    ensures ValuesOf(fs) == old(ValuesOf(fs))
  {
  }

  lemma SecondOf(fs: seq<Fframe>, frame: Fframe)
    requires fs != []
    ensures ValuesOf([fs[0]] + ([frame] + fs[1..])) == Second(ValuesOf(fs), frame.Value())
  {
    hide ValuesOf;
    ValuesCons(fs[0], [frame] + fs[1..]);
    ValuesCons(frame, fs[1..]);
    ValuesCons(fs[0], fs[1..]);
    assert [fs[0]] + fs[1..] == fs;
  }

  method MakeRoom(a: array<byte>, start: nat)
    requires TAG_HDR <= start && start + ETH_HDR <= a.Length
    modifies a
    ensures a[..] == InsertTag(old(a[..]), start, [0, 0, 0, 0])
  {
    ghost var was := a[..];
    MemMove(a, start - TAG_HDR, start, ETH_HDR);
    MemSet(a, start + ETH_HDR - TAG_HDR, 0, TAG_HDR);
    assert a[..] == InsertTag(was, start, [0, 0, 0, 0]);
  }

  method CloseGap(a: array<byte>, start: nat)
    requires start + ETH_HDR + TAG_HDR <= a.Length
    modifies a
    ensures a[..] == RemoveTag(old(a[..]), start)
  {
    ghost var was := a[..];
    MemMove(a, start + TAG_HDR, start, ETH_HDR);
    assert a[..] == RemoveTag(was, start);
  }

  lemma {:induction false} FirstIs(hs: seq<Header>, kind: Kind, k: nat)
    requires k < |hs| && hs[k].kind == kind
    requires forall i :: 0 <= i < k ==> hs[i].kind != kind
    ensures First(hs, kind) == Some(k)
    decreases k
  {
    if k > 0 {
      FirstIs(hs[1..], kind, k - 1);
    }
  }

  class Cpacket {
    const mem: array<byte>
    const stray: int
    var start: nat
    var end: nat
    var match_: Match
    var head: Fframe?
    var tail: Fframe?
    ghost var frames: seq<Fframe>
    ghost var repr: set<Fframe>

    /** head and tail are the ends of frames, next and prev its steps, and no frame occurs twice. */
    ghost predicate Linked()
      reads `head, `tail, `frames, `repr, repr
    {
      && (forall f :: f in frames ==> f in repr)
      && (forall i, j :: 0 <= i < j < |frames| ==> frames[i] != frames[j])
      && head == (if frames == [] then null else frames[0])
      && tail == (if frames == [] then null else frames[|frames| - 1])
      && (forall i {:trigger frames[i].next} :: 0 <= i < |frames| ==>
            frames[i].next == if i + 1 < |frames| then frames[i + 1] else null)
      && (forall i {:trigger frames[i].prev} :: 0 <= i < |frames| ==>
            frames[i].prev == if i > 0 then frames[i - 1] else null)
    }

    ghost function Values(): (hs: seq<Header>)
      reads `frames, frames
      ensures |hs| == |frames|
      ensures forall i :: 0 <= i < |hs| ==> hs[i] == frames[i].Value()
    {
      ValuesOf(frames)
    }

    /** What the object holds, as a value. */
    ghost function View(): Packet
      reads this, mem, frames
    {
      Packet(mem[..], start, end, Values(), match_, stray)
    }

    ghost predicate Valid()
      reads this, mem, repr, frames
    {
      Linked() && WellFormed(View())
    }

    constructor (hspace: nat, data: seq<byte>, stray: int)
      ensures Valid() && fresh(mem)
      ensures start == hspace && end == mem.Length && mem[start..] == data && frames == []
    {
      mem := new byte[hspace + |data|](
        i requires 0 <= i < hspace + |data| => if i < hspace then 0 else data[i - hspace]);
      this.stray := stray;
      start, end := hspace, hspace + |data|;
      match_ := EMPTY_MATCH;
      head, tail, frames, repr := null, null, [], {};
    }

    // ---- the frame list ---------------------------------------------------------------------

    method FrameAppend(frame: Fframe)
      requires Linked() && frame !in repr && frame.next == null && frame.prev == null
      modifies `head, `tail, `frames, `repr, repr, frame
      ensures repr == old(repr) + {frame}
      ensures Linked() && frames == old(frames) + [frame]
      ensures forall f <- frames :: f.Value() == old(f.Value())
    {
      if head == null && tail == null {
        head, tail := frame, frame;
        frame.next := null;
        frame.prev := null;
      } else {
        tail.next := frame;
        frame.prev := tail;
        tail := frame;
      }
      frames := frames + [frame];
      repr := repr + {frame};
    }

    /** A new frame becomes the second one, behind the Ethernet frame. */
    method FramePush(frame: Fframe)
      requires Linked() && frame !in repr && frame.next == null && frame.prev == null
      modifies `head, `tail, `frames, `repr, repr, frame
      ensures repr == old(repr) + {frame}
      ensures Linked()
      ensures frames == if old(frames) == [] then [frame] else [old(frames)[0]] + ([frame] + old(frames)[1..])
      ensures forall f <- old(frames) :: f.Value() == old(f.Value())
      ensures frame.Value() == old(frame.Value())
    {
      if head == null || tail == null {
        head, tail := frame, frame;
        frames := [frame];
      } else {
        frame.next := head.next;
        head.next := frame;
        frame.prev := head;
        if frame.next != null {
          frame.next.prev := frame;
        } else {
          tail := frame;
        }
        frames := [frames[0]] + ([frame] + frames[1..]);
      }
      repr := repr + {frame};
    }

    /** Takes exactly the given frame out, wherever in the list it is. */
    method FramePop(frame: Fframe, ghost k: nat)
      requires Linked() && k < |frames| && frames[k] == frame
      modifies `head, `tail, `frames, repr
      ensures Linked() && frames == old(frames)[..k] + old(frames)[k + 1..]
      ensures frame.next == null && frame.prev == null
      ensures forall f <- old(frames) :: f.Value() == old(f.Value())
    {
      assert frame.next == if k + 1 < |frames| then frames[k + 1] else null;
      assert frame.prev == if k > 0 then frames[k - 1] else null;
      if frame.next != null {
        frame.next.prev := frame.prev;
      } else {
        tail := frame.prev;
      }
      if frame.prev != null {
        frame.prev.next := frame.next;
      } else {
        head := frame.next;
      }
      frame.next := null;
      frame.prev := null;
      assert forall i :: 0 <= i < |frames| && i != k ==> frames[i] != frame;
      frames := frames[..k] + frames[k + 1..];
    }

    /** Forgets every frame, both tag flags and the match. */
    method Reset()
      requires Linked()
      modifies `head, `tail, `frames, `match_, repr
      ensures Linked() && frames == [] && match_ == EMPTY_MATCH
      ensures forall f <- old(frames) :: f.next == null && f.prev == null
    {
      match_ := EMPTY_MATCH;
      ghost var all := frames;
      ghost var n: nat := 0;
      while head != null
        invariant n <= |all|
        invariant head == if n < |all| then all[n] else null
        invariant forall i, j :: 0 <= i < j < |all| ==> all[i] != all[j]
        invariant forall i {:trigger all[i].next} :: n <= i < |all| ==>
                    all[i].next == if i + 1 < |all| then all[i + 1] else null
        invariant forall i :: 0 <= i < n ==> all[i].next == null && all[i].prev == null
        invariant frames == all && match_ == EMPTY_MATCH
        decreases |all| - n
      {
        var curr := head;
        head := curr.next;
        curr.next := null;
        curr.prev := null;
        n := n + 1;
      }
      head, tail, frames := null, null, [];
    }

    /** The i-th frame from the head or, for negative i, from the tail: the walks along next and
        along prev visit the same frames in opposite order. */
    method FrameAt(i: int) returns (r: Option<Fframe>)
      requires Linked()
      ensures var k := if i >= 0 then i else |frames| + i;
              if 0 <= k < |frames| then r == Some(frames[k]) else r == None
    {
      if head == null || tail == null {
        return None;
      }
      if i >= 0 {
        var curr := head;
        for j := 0 to i
          invariant j < |frames| && curr == frames[j]
        {
          if curr.next == null {
            return None;
          }
          curr := curr.next;
        }
        return Some(curr);
      } else {
        var curr := tail;
        for j := 1 to -i
          invariant 1 <= j <= |frames| && curr == frames[|frames| - j]
        {
          if curr.prev == null {
            return None;
          }
          curr := curr.prev;
        }
        return Some(curr);
      }
    }

    /** The first frame of the given kind, with its position. */
    method Find(kind: Kind) returns (r: Option<Fframe>, ghost k: nat)
      requires Linked()
      ensures r.Some? ==> First(Values(), kind) == Some(k) && k < |frames| && frames[k] == r.value
      ensures r.None? ==> First(Values(), kind) == None
    {
      k := 0;
      if head == null || tail == null {
        return None, 0;
      }
      var curr := head;
      while curr.kind != kind
        invariant k < |frames| && curr == frames[k]
        invariant forall i :: 0 <= i < k ==> frames[i].kind != kind
        decreases |frames| - k
      {
        if curr.next == null {
          assert forall i :: 0 <= i < |frames| ==> Values()[i].kind != kind;
          return None, 0;
        }
        curr := curr.next;
        k := k + 1;
      }
      FirstIs(Values(), kind, k);
      return Some(curr), k;
    }

    // ---- the classifier -----------------------------------------------------------------------

    method NewFrame(kind: Kind, off: nat, len: nat)
      requires Linked()
      modifies `head, `tail, `frames, `repr, repr
      ensures Linked() && fresh(repr - old(repr))
      ensures Values() == old(Values()) + [Header(kind, off, len)]
    {
      var frame := new Fframe(kind, off, len);
      FrameAppend(frame);
    }

    method NoteVlan(off: nat, t: int)
      requires off + TAG_HDR <= mem.Length && t == U16(mem[..], off + 2)
      modifies `match_
      ensures match_ == Note(mem[..], old(match_), Header(Vlan, off, TAG_HDR))
    {
      if !match_.vlanPresent {
        match_ := match_.(vlan := Some(VlanTag(mem[off] as int % 16 * 0x100 + mem[off + 1], mem[off] / 32)),
                          vlanPresent := true);
      }
      match_ := match_.(ethType := Some(t));
    }

    method NoteMpls(off: nat)
      requires off + TAG_HDR <= mem.Length
      modifies `match_
      ensures match_ == Note(mem[..], old(match_), Header(Mpls, off, TAG_HDR))
    {
      if !match_.mplsPresent {
        match_ := match_.(mpls := Some(MplsTag(mem[off] as int * 0x1000 + mem[off + 1] as int * 16 + mem[off + 2] / 16,
                                               mem[off + 2] % 16 / 2)),
                          mplsPresent := true);
      }
    }

    method ParsePayload(off: nat)
      requires Linked() && off <= end <= mem.Length && TagsInside(mem[..], Parse(mem[..], Payload, off, end))
      modifies `head, `tail, `frames, `match_, `repr, repr
      ensures Linked() && fresh(repr - old(repr))
      ensures Values() == old(Values()) + Parse(mem[..], Payload, off, end)
      ensures match_ == NoteAll(mem[..], old(match_), Parse(mem[..], Payload, off, end))
    {
      hide Parse, NoteAll, Linked, Values, ValuesOf, TagsInside, LayerOfType, LayerOfIpv4Proto, LayerOfIpv6Next;
      hide FragmentBit, BottomOfStack, U16, Ipv6Refused;
      ParseStep(mem[..], match_, Payload, off, end);
      if end - off > 0 {
        NewFrame(Payload, off, end - off);
      }
    }

    /** The switch over the ethertype, shared by the Ethernet and the VLAN parser. */
    method ParseType(t: int, off: nat)
      requires Linked() && off <= end <= mem.Length && TagsInside(mem[..], Parse(mem[..], LayerOfType(t), off, end))
      modifies `head, `tail, `frames, `match_, `repr, repr
      ensures Linked() && fresh(repr - old(repr))
      ensures Values() == old(Values()) + Parse(mem[..], LayerOfType(t), off, end)
      ensures match_ == NoteAll(mem[..], old(match_), Parse(mem[..], LayerOfType(t), off, end))
      decreases end - off, 1
    {
      hide Parse, NoteAll, Linked, Values, ValuesOf, TagsInside;
      if t == 0x8100 || t == 0x88a8 || t == 0x88e7 {
        ParseVlan(off);
      } else if t == 0x8847 || t == 0x8848 {
        ParseMpls(off);
      } else if t == 0x0806 {
        ParseFixed(Arp, off);
      } else if t == 0x0800 {
        ParseIpv4(off);
      } else if t == 0x86dd {
        ParseIpv6(off);
      } else {
        ParsePayload(off);
      }
    }

    method ParseVlan(off: nat)
      requires Linked() && off <= end <= mem.Length && TagsInside(mem[..], Parse(mem[..], Vlan, off, end))
      modifies `head, `tail, `frames, `match_, `repr, repr
      ensures Linked() && fresh(repr - old(repr))
      ensures Values() == old(Values()) + Parse(mem[..], Vlan, off, end)
      ensures match_ == NoteAll(mem[..], old(match_), Parse(mem[..], Vlan, off, end))
      decreases end - off, 0
    {
      hide Parse, NoteAll, Linked, Values, ValuesOf, TagsInside, Note, LayerOfType, LayerOfIpv4Proto, LayerOfIpv6Next;
      hide Ipv6Refused, FragmentBit, BottomOfStack;
      ParseStep(mem[..], match_, Vlan, off, end);
      if end - off < TAG_HDR {
        return;
      }
      var t := mem[off + 2] as int * 0x100 + mem[off + 3];
      NoteVlan(off, t);
      NewFrame(Vlan, off, TAG_HDR);
      ParseType(t, off + TAG_HDR);
    }

    method ParseMpls(off: nat)
      requires Linked() && off <= end <= mem.Length && TagsInside(mem[..], Parse(mem[..], Mpls, off, end))
      modifies `head, `tail, `frames, `match_, `repr, repr
      ensures Linked() && fresh(repr - old(repr))
      ensures Values() == old(Values()) + Parse(mem[..], Mpls, off, end)
      ensures match_ == NoteAll(mem[..], old(match_), Parse(mem[..], Mpls, off, end))
      decreases end - off, 0
    {
      hide Parse, NoteAll, Linked, Values, ValuesOf, TagsInside, Note, LayerOfType, LayerOfIpv4Proto, LayerOfIpv6Next;
      hide Ipv6Refused, FragmentBit, U16;
      ParseStep(mem[..], match_, Mpls, off, end);
      if end - off < TAG_HDR {
        return;
      }
      NoteMpls(off);
      NewFrame(Mpls, off, TAG_HDR);
      if mem[off + 2] % 2 == 0 {
        ParseMpls(off + TAG_HDR);
      } else {
        ParsePayload(off + TAG_HDR);
      }
    }

    /** ARP, ICMPv6, UDP, TCP and SCTP: a header of fixed size, then payload. */
    method ParseFixed(kind: Kind, off: nat)
      requires kind == Arp || kind == Icmpv6 || kind == Udp || kind == Tcp || kind == Sctp
      requires Linked() && off <= end <= mem.Length && TagsInside(mem[..], Parse(mem[..], kind, off, end))
      modifies `head, `tail, `frames, `match_, `repr, repr
      ensures Linked() && fresh(repr - old(repr))
      ensures Values() == old(Values()) + Parse(mem[..], kind, off, end)
      ensures match_ == NoteAll(mem[..], old(match_), Parse(mem[..], kind, off, end))
    {
      hide Parse, NoteAll, Linked, Values, ValuesOf, TagsInside, LayerOfType, LayerOfIpv4Proto, LayerOfIpv6Next;
      hide Ipv6Refused, FragmentBit, BottomOfStack, U16;
      ParseStep(mem[..], match_, kind, off, end);
      if end - off < Size(kind) {
        return;
      }
      NewFrame(kind, off, Size(kind));
      ParsePayload(off + Size(kind));
    }

    method ParseIcmpv4(off: nat)
      requires Linked() && off <= end <= mem.Length && TagsInside(mem[..], Parse(mem[..], Icmpv4, off, end))
      modifies `head, `tail, `frames, `match_, `repr, repr
      ensures Linked() && fresh(repr - old(repr))
      ensures Values() == old(Values()) + Parse(mem[..], Icmpv4, off, end)
      ensures match_ == NoteAll(mem[..], old(match_), Parse(mem[..], Icmpv4, off, end))
    {
      hide Parse, NoteAll, Linked, Values;
      ParseStep(mem[..], match_, Icmpv4, off, end);
      if end - off < Size(Icmpv4) {
        return;
      }
      NewFrame(Icmpv4, off, end - off);
    }

    method ParseIpv4(off: nat)
      requires Linked() && off <= end <= mem.Length && TagsInside(mem[..], Parse(mem[..], Ipv4, off, end))
      modifies `head, `tail, `frames, `match_, `repr, repr
      ensures Linked() && fresh(repr - old(repr))
      ensures Values() == old(Values()) + Parse(mem[..], Ipv4, off, end)
      ensures match_ == NoteAll(mem[..], old(match_), Parse(mem[..], Ipv4, off, end))
      decreases end - off, 0
    {
      hide Parse, NoteAll, Linked, Values, ValuesOf, TagsInside, LayerOfType, LayerOfTransport, BottomOfStack;
      ParseStep(mem[..], match_, Ipv4, off, end);
      if end - off < Size(Ipv4) {
        return;
      }
      var proto := mem[off + 9];
      NewFrame(Ipv4, off, Size(Ipv4));
      if mem[off + 6] >= 0x80 {
        return;
      }
      if proto == 4 {
        ParseIpv4(off + Size(Ipv4));
      } else if proto == 1 {
        ParseIcmpv4(off + Size(Ipv4));
      } else if proto == 41 {
        ParseIpv6(off + Size(Ipv4));
      } else {
        ParseTransport(proto, off + Size(Ipv4));
      }
    }

    method ParseIpv6(off: nat)
      requires Linked() && off <= end <= mem.Length && TagsInside(mem[..], Parse(mem[..], Ipv6, off, end))
      modifies `head, `tail, `frames, `match_, `repr, repr
      ensures Linked() && fresh(repr - old(repr))
      ensures Values() == old(Values()) + Parse(mem[..], Ipv6, off, end)
      ensures match_ == NoteAll(mem[..], old(match_), Parse(mem[..], Ipv6, off, end))
      decreases end - off, 0
    {
      hide Parse, NoteAll, Linked, Values, ValuesOf, TagsInside, LayerOfType, LayerOfTransport, BottomOfStack;
      ParseStep(mem[..], match_, Ipv6, off, end);
      if end - off < Size(Ipv6) {
        return;
      }
      var next := mem[off + 6];
      if mem[off] / 16 == 6 && IsIpv6Extension(next) {
        return;  // the constructor of the IPv6 frame throws, which ends the classification
      }
      NewFrame(Ipv6, off, Size(Ipv6));
      if next == 4 {
        ParseIpv4(off + Size(Ipv6));
      } else if next == 41 {
        ParseIpv6(off + Size(Ipv6));
      } else if next == 58 {
        ParseFixed(Icmpv6, off + Size(Ipv6));
      } else {
        ParseTransport(next, off + Size(Ipv6));
      }
    }

    /** The cases the switches over the IPv4 protocol and the IPv6 next header share. */
    method ParseTransport(proto: int, off: nat)
      requires Linked() && off <= end <= mem.Length
              && TagsInside(mem[..], Parse(mem[..], LayerOfTransport(proto), off, end))
      modifies `head, `tail, `frames, `match_, `repr, repr
      ensures Linked() && fresh(repr - old(repr))
      ensures Values() == old(Values()) + Parse(mem[..], LayerOfTransport(proto), off, end)
      ensures match_ == NoteAll(mem[..], old(match_), Parse(mem[..], LayerOfTransport(proto), off, end))
    {
      hide Parse, NoteAll, Linked, Values, ValuesOf, TagsInside;
      if proto == 17 {
        ParseFixed(Udp, off);
      } else if proto == 6 {
        ParseFixed(Tcp, off);
      } else if proto == 132 {
        ParseFixed(Sctp, off);
      } else {
        ParsePayload(off);
      }
    }

    /** The ethertype as the Ethernet frame's accessor reads it. */
    method GetDlType() returns (t: int)
      requires start + ETH_HDR <= end <= mem.Length
      ensures t == EthType(mem[..], start, end, stray)
    {
      t := mem[start + 12] as int * 0x100 + mem[start + 13];
      if t < MIN_ETHERTYPE {
        if start + 22 <= end {
          t := mem[start + 20] as int * 0x100 + mem[start + 21];
        } else {
          t := stray;
        }
      }
    }

    method ParseEther()
      requires Linked() && start <= end <= mem.Length && Values() == []
      requires TagsInside(mem[..], Headers.Classify(mem[..], start, end, stray))
      modifies `head, `tail, `frames, `match_, `repr, repr
      ensures Linked() && fresh(repr - old(repr))
      ensures Values() == Headers.Classify(mem[..], start, end, stray)
      ensures match_ == ClassifyMatch(mem[..], start, end, stray, old(match_))
    {
      hide Parse, NoteAll, Linked, TagsInside, LayerOfType, Note, Headers.Classify, Values, EthType;
      if end - start < ETH_HDR {
        ClassifyNothing(mem[..], start, end, stray);
        return;
      }
      var t := GetDlType();
      match_ := match_.(ethType := Some(t));
      ClassifyStep(mem[..], start, end, stray, match_);
      NewFrame(Ether, start, ETH_HDR);
      ParseType(t, start + ETH_HDR);
    }

    /** Forgets what was known and parses the packet from its first octet. */
    method Classify()
      requires Linked() && start <= end <= mem.Length
      modifies `head, `tail, `frames, `match_, `repr, repr
      ensures Valid() && fresh(repr - old(repr))
      ensures Values() == Headers.Classify(mem[..], start, end, stray)
      ensures TagsInside(mem[..], Values())
      ensures match_ == ClassifyMatch(mem[..], start, end, stray, EMPTY_MATCH)
    {
      hide Headers.Classify, Linked, TagsInside, ClassifyMatch;
      Reset();
      ClassifyWellFormed(mem[..], start, end, stray);
      ParseEther();
      assert View().hdrs == Headers.Classify(mem[..], start, end, stray);
    }

    // ---- tags ---------------------------------------------------------------------------------

    method SetDlType(t: int)
      requires start + ETH_HDR <= end <= mem.Length && TypeOff(mem[..], start) + 2 <= mem.Length
      requires 0 <= t < 0x1_0000
      modifies mem
      ensures mem[..] == SetType(old(mem[..]), start, t)
    {
      var i := if mem[start + 12] as int * 0x100 + mem[start + 13] < MIN_ETHERTYPE then start + 20 else start + 12;
      mem[i] := t / 0x100;
      mem[i + 1] := t % 0x100;
    }

    /** Makes room for four octets behind the Ethernet header by moving that into the headroom. */
    method TagInsert() returns (ok: bool)
      requires Linked() && frames != [] && frames[0].kind == Ether
      requires start + ETH_HDR <= end <= mem.Length
      modifies `start, mem, repr
      ensures Linked() && frames == old(frames)
      ensures ok == (old(start) >= TAG_HDR)
      ensures !ok ==> start == old(start) && mem[..] == old(mem[..]) && Values() == old(Values())
      ensures ok ==> start == old(start) - TAG_HDR
                     && mem[..] == InsertTag(old(mem[..]), old(start), [0, 0, 0, 0])
                     && Values() == [Header(Ether, start, ETH_HDR)] + old(Values())[1..]
    {
      hide ValuesOf, InsertTag;
      if TAG_HDR > start {
        return false;
      }
      MakeRoom(mem, start);
      start := start - TAG_HDR;
      ResetEther();
      return true;
    }

    /** Moves the Ethernet header back over the frame's octets. */
    method TagRemove(len: nat)
      requires Linked() && frames != [] && frames[0].kind == Ether
      requires start + ETH_HDR + TAG_HDR <= end <= mem.Length && len == TAG_HDR
      modifies `start, mem, repr
      ensures Linked() && frames == old(frames)
      ensures start == old(start) + TAG_HDR
      ensures mem[..] == RemoveTag(old(mem[..]), old(start))
      ensures Values() == [Header(Ether, start, ETH_HDR)] + old(Values())[1..]
    {
      hide ValuesOf, RemoveTag;
      CloseGap(mem, start);
      start := start + len;
      ResetEther();
    }

    /** Fills the VLAN tag that was made room for in m: its type, its id and its priority. */
    method WriteVlan(t: VlanTag, ethType: int, ghost m: seq<byte>)
      requires start + ETH_HDR + TAG_HDR <= mem.Length == |m| && 0 <= ethType < 0x1_0000
      requires 0 <= t.vid < 0x1000 && 0 <= t.pcp < 8
      requires mem[..] == InsertTag(m, start + TAG_HDR, [0, 0, 0, 0])
      modifies mem
      ensures mem[..] == InsertTag(m, start + TAG_HDR, VlanBytes(t, ethType))
    {
      hide SetVid, SetPcp;
      var off := start + ETH_HDR;
      mem[off + 2] := ethType / 0x100;
      mem[off + 3] := ethType % 0x100;
      mem[off + 1] := t.vid % 0x100;
      mem[off] := SetVid(mem[off], t.vid);
      mem[off] := SetPcp(mem[off], t.pcp);
      InsertTagFilled(m, start + TAG_HDR, VlanBytes(t, ethType), mem[..]);
    }

    /** Fills the MPLS tag that was made room for in m: label, traffic class, time to live and bottom
        of stack. */
    method WriteMpls(t: MplsTag, ttl: byte, bos: bool, ghost m: seq<byte>)
      requires start + ETH_HDR + TAG_HDR <= mem.Length == |m|
      requires 0 <= t.id < 0x10_0000 && 0 <= t.tc < 8
      requires mem[..] == InsertTag(m, start + TAG_HDR, [0, 0, 0, 0])
      modifies mem
      ensures mem[..] == InsertTag(m, start + TAG_HDR, MplsBytes(t, ttl, bos))
    {
      hide SetLabel, SetTc, SetBos;
      var off := start + ETH_HDR;
      mem[off] := t.id / 0x1000;
      mem[off + 1] := t.id / 16 % 0x100;
      mem[off + 2] := SetLabel(mem[off + 2], t.id);
      mem[off + 2] := SetTc(mem[off + 2], t.tc);
      mem[off + 3] := ttl;
      mem[off + 2] := SetBos(mem[off + 2], bos);
      InsertTagFilled(m, start + TAG_HDR, MplsBytes(t, ttl, bos), mem[..]);
    }

    method ReadVlan(off: nat) returns (t: VlanTag)
      requires off + TAG_HDR <= mem.Length
      ensures t == VlanAt(mem[..], off)
    {
      t := VlanTag(mem[off] as int % 16 * 0x100 + mem[off + 1], mem[off] / 32);
    }

    method ReadMpls(off: nat) returns (t: MplsTag)
      requires off + TAG_HDR <= mem.Length
      ensures t == MplsAt(mem[..], off)
    {
      t := MplsTag(mem[off] as int * 0x1000 + mem[off + 1] as int * 16 + mem[off + 2] / 16, mem[off + 2] % 16 / 2);
    }

    /** push_vlan: the type is written before the headroom is known to suffice. */
    method PushVlan(ethType: int) returns (st: Status)
      requires Valid() && Editable(View()) && 0 <= ethType < 0x1_0000
      modifies this, mem, repr
      ensures Valid() && fresh(repr - old(repr))
      ensures View() == Tags.PushVlan(old(View()), ethType)
      ensures st == PushStatus(old(View()))
    {
      hide Linked, ValuesOf, Values, First, InsertTag, SetType, TotalLen, VlanAt, VlanBytes, OuterVlan, Second;
      hide PushStatus;
      hide Tags.PushVlan, WellFormed, EthType, TypeOff, Editable, U16;
      ghost var p := View();
      EtherFirst(p);
      StatusOf(p);
      var ether, k0 := Find(Ether);
      if ether.None? {
        PushNothing(p, ethType);
        return NotFound;
      }
      TypeRead(p, ethType);
      var t := GetDlType();
      var tag := OuterVlanTag();
      var ok := BeginPush(ethType);
      if !ok {
        PushRefused(p, View(), ethType);
        return OutOfRange;
      }
      FinishVlan(tag, t, p, ethType);
      return Done;
    }

    /** Fills the VLAN tag and enters its frame and its match. */
    method FinishVlan(tag: VlanTag, t: int, ghost p: Packet, ghost ethType: int)
      requires Linked() && Editable(p) && p.hdrs != [] && p.start >= TAG_HDR && 0 <= ethType < 0x1_0000
      requires View() == Begun(p, ethType)
      requires tag == OuterVlan(p) && TypeOff(p.mem, p.start) + 2 <= |p.mem| && t == U16(p.mem, TypeOff(p.mem, p.start))
      modifies this, mem, repr
      ensures Valid() && fresh(repr - old(repr))
      ensures View() == Tags.PushVlan(p, ethType)
    {
      hide Linked, ValuesOf, Values, First, InsertTag, SetType, TotalLen, VlanAt, VlanBytes, OuterVlan, Second;
      hide Tags.PushVlan, WellFormed, EthType, TypeOff, Editable, U16;
      BegunFits(p, ethType);
      WriteVlan(tag, t, SetType(p.mem, p.start, ethType));
      NewTag(Vlan);
      match_ := match_.(vlan := Some(tag));
      PushVlanDone(p, View(), ethType);
    }

    /** push_mpls: like push_vlan, and the match takes over the pushed type. */
    method PushMpls(ethType: int) returns (st: Status)
      requires Valid() && Editable(View()) && 0 <= ethType < 0x1_0000
      modifies this, mem, repr
      ensures Valid() && fresh(repr - old(repr))
      ensures View() == Tags.PushMpls(old(View()), ethType)
      ensures st == PushStatus(old(View()))
    {
      hide Linked, ValuesOf, Values, First, InsertTag, SetType, TotalLen, MplsAt, MplsBytes, OuterMpls;
      hide Tags.PushMpls, WellFormed, EthType, TypeOff, Editable, U16;
      ghost var p := View();
      EtherFirst(p);
      var tag, ttl, bos := OuterMplsTag();
      var ether, k0 := Find(Ether);
      if ether.None? {
        PushNothing(p, ethType);
        return NotFound;
      }
      TypeRead(p, ethType);
      var ok := BeginPush(ethType);
      if !ok {
        PushRefused(p, View(), ethType);
        return OutOfRange;
      }
      FinishMpls(tag, ttl, bos, p, ethType);
      return Done;
    }

    /** Enters the frame of the MPLS tag, fills the tag and enters the match. */
    method FinishMpls(tag: MplsTag, ttl: byte, bos: bool, ghost p: Packet, ethType: int)
      requires Linked() && Editable(p) && p.hdrs != [] && p.start >= TAG_HDR && 0 <= ethType < 0x1_0000
      requires View() == Begun(p, ethType)
      requires (tag, ttl, bos) == OuterMpls(p)
      modifies this, mem, repr
      ensures Valid() && fresh(repr - old(repr))
      ensures View() == Tags.PushMpls(p, ethType)
    {
      hide Linked, ValuesOf, Values, First, InsertTag, SetType, TotalLen, MplsAt, MplsBytes, OuterMpls, Second;
      hide Tags.PushMpls, WellFormed, EthType, TypeOff, Editable, U16;
      BegunFits(p, ethType);
      NewTag(Mpls);
      WriteMpls(tag, ttl, bos, SetType(p.mem, p.start, ethType));
      match_ := match_.(ethType := Some(ethType), mpls := Some(tag));
      PushMplsDone(p, View(), ethType);
    }

    /** pop_vlan: takes the first VLAN frame off, or does nothing without one. */
    method PopVlan()
      requires Valid() && Editable(View())
      modifies this, mem, repr
      ensures Valid() && repr == old(repr)
      ensures View() == Tags.PopVlan(old(View()))
    {
      hide Linked, ValuesOf, Values, First, RemoveTag, SetType, TotalLen, Without;
      hide Tags.PopVlan, WellFormed, EthType, TypeOff, Editable;
      ghost var p := View();
      var vlan, k := Find(Vlan);
      if vlan.None? {
        PopVlanNothing(p);
        return;
      }
      PopReady(p, k);
      var t := mem[vlan.value.off + 2] as int * 0x100 + mem[vlan.value.off + 3];
      PopTag(vlan.value, k, t);
      var shown := GetDlType();
      match_ := match_.(vlan := None, ethType := Some(shown));
      PopVlanDone(p, View(), k);
    }

    /** pop_mpls: takes the outermost tag off if it is an MPLS tag, else does nothing. */
    method PopMpls(ethType: int)
      requires Valid() && Editable(View()) && 0 <= ethType < 0x1_0000
      modifies this, mem, repr
      ensures Valid() && repr == old(repr)
      ensures View() == Tags.PopMpls(old(View()), ethType)
    {
      hide Linked, ValuesOf, RemoveTag, SetType, TotalLen, Without;
      hide Tags.PopMpls, WellFormed, EthType, TypeOff, Editable, U16;
      ghost var p := View();
      var second := FrameAt(1);
      if second.None? || second.value.kind != Mpls {
        PopMplsNothing(p, ethType);
        return;
      }
      var mpls, k := Find(Mpls);
      PopReady(p, 1);
      SecondIsFirst(p, Mpls);
      PopTag(mpls.value, k, ethType);
      var shown := GetDlType();
      match_ := match_.(mpls := None, ethType := Some(shown));
      PopMplsDone(p, View(), ethType);
    }

    /** What both pops do: the type, the octets, the frame. */
    method PopTag(frame: Fframe, ghost k: nat, ethType: int)
      requires Valid() && Editable(View()) && 0 <= ethType < 0x1_0000
      requires 0 < k < |frames| && frames[k] == frame && IsTag(frame.kind)
      modifies `start, `head, `tail, `frames, mem, repr
      ensures Linked()
      ensures start == old(start) + TAG_HDR && start + ETH_HDR <= end
      ensures old(TypeOff(mem[..], start)) + 2 <= mem.Length
      ensures mem[..] == RemoveTag(SetType(old(mem[..]), old(start), ethType), old(start))
      ensures Values() == Without([Header(Ether, start, ETH_HDR)] + old(Values())[1..], k)
    {
      hide Linked, ValuesOf, RemoveTag, SetType, TotalLen, Without, WellFormed, Editable, TypeOff, U16, Sound;
      ghost var p := View();
      TagReady(p, k);
      assert p.hdrs[0] == frames[0].Value() && p.hdrs[k] == frame.Value();
      SetDlType(ethType);
      TagRemove(frame.len);
      DropFrame(frame, k);
    }

    method DropFrame(frame: Fframe, ghost k: nat)
      requires Linked() && k < |frames| && frames[k] == frame
      modifies `head, `tail, `frames, repr
      ensures Linked() && Values() == Without(old(Values()), k)
    {
      hide Linked, ValuesOf;
      ghost var was := Values();
      FramePop(frame, k);
      assert forall i :: 0 <= i < |frames| ==> frames[i] == if i < k then old(frames)[i] else old(frames)[i + 1];
      assert forall i :: 0 <= i < |frames| ==> Values()[i] == Without(was, k)[i];
    }

    method OuterMplsTag() returns (t: MplsTag, ttl: byte, bos: bool)
      requires Valid()
      ensures (t, ttl, bos) == OuterMpls(View())
    {
      hide Linked, ValuesOf, First, MplsAt, TotalLen, OuterMpls, Sound;
      OuterMplsIs(View());
      var outer, k := Find(Mpls);
      if outer.None? {
        return MplsTag(0, 0), 0, true;
      }
      assert View().hdrs[k].off == outer.value.off;
      t := ReadMpls(outer.value.off);
      ttl := mem[outer.value.off + 3];
      bos := false;
    }

    method OuterVlanTag() returns (t: VlanTag)
      requires Valid()
      ensures t == OuterVlan(View())
    {
      var outer, k := Find(Vlan);
      if outer.None? {
        return VlanTag(0, 0);
      }
      assert Sound(View().hdrs[k], end);
      t := ReadVlan(outer.value.off);
    }

    /** What both pushes do before they fill the tag. */
    method BeginPush(ethType: int) returns (ok: bool)
      requires Valid() && Editable(View()) && frames != [] && 0 <= ethType < 0x1_0000
      modifies `start, mem, repr
      ensures Linked() && frames == old(frames)
      ensures ok == (old(start) >= TAG_HDR)
      ensures !ok ==> start == old(start) && Values() == old(Values())
                      && mem[..] == SetType(old(mem[..]), start, ethType)
      ensures ok ==> start == old(start) - TAG_HDR
                     && mem[..] == InsertTag(SetType(old(mem[..]), old(start), ethType), old(start), [0, 0, 0, 0])
                     && Values() == [Header(Ether, start, ETH_HDR)] + old(Values())[1..]
    {
      hide Linked, ValuesOf, InsertTag, SetType, TotalLen;
      assert Values()[0] == frames[0].Value();
      SetDlType(ethType);
      ok := TagInsert();
    }

    /** A new frame for the four octets behind the Ethernet header, put second in the list. */
    method NewTag(kind: Kind)
      requires Linked() && frames != []
      modifies `head, `tail, `frames, `repr, repr
      ensures Linked() && fresh(repr - old(repr))
      ensures Values() == Second(old(Values()), Header(kind, start + ETH_HDR, TAG_HDR))
    {
      hide Linked, ValuesOf, Second;
      var frame := new Fframe(kind, start + ETH_HDR, TAG_HDR);
      FramePush(frame);
      SecondValue(old(frames), frame);
    }

    /** Points the Ethernet frame to the start of the packet. */
    method ResetEther()
      requires Linked() && frames != [] && frames[0].kind == Ether
      modifies repr
      ensures Linked()
      ensures Values() == [Header(Ether, start, ETH_HDR)] + old(Values())[1..]
    {
      hide ValuesOf;
      var ether := FindEther();
      ether.off := start;
      ether.len := ETH_HDR;
      assert forall i :: 0 < i < |frames| ==> frames[i].Value() == old(frames[i].Value());
    }

    method FindEther() returns (ether: Fframe)
      requires Linked() && frames != [] && frames[0].kind == Ether
      ensures ether == frames[0]
    {
      FirstIs(Values(), Ether, 0);
      var r, k := Find(Ether);
      ether := r.value;
    }
  }

  lemma OuterMplsIs(p: Packet)
    requires WellFormed(p)
    ensures First(p.hdrs, Mpls) == None ==> OuterMpls(p) == (MplsTag(0, 0), 0, true)
    ensures forall k: nat :: First(p.hdrs, Mpls) == Some(k) ==>
              && k < |p.hdrs| && p.hdrs[k].off + TAG_HDR <= |p.mem|
              && OuterMpls(p) == (MplsAt(p.mem, p.hdrs[k].off), p.mem[p.hdrs[k].off + 3], false)
  {
    hide MplsAt, TotalLen;
    match First(p.hdrs, Mpls)
    case None =>
    case Some(k) => assert Sound(p.hdrs[k], p.end);
  }

  lemma StatusOf(p: Packet)
    ensures PushStatus(p) == NotFound <==> p.hdrs == []
    ensures p.hdrs != [] ==> (PushStatus(p) == OutOfRange <==> p.start < TAG_HDR)
  {
  }

  lemma PushNothing(p: Packet, ethType: int)
    requires Editable(p) && p.hdrs == [] && 0 <= ethType < 0x1_0000
    ensures Tags.PushVlan(p, ethType) == p && Tags.PushMpls(p, ethType) == p
  {
  }

  lemma TypeRead(p: Packet, ethType: int)
    requires Editable(p) && p.hdrs != [] && 0 <= ethType < 0x1_0000
    ensures TypeOff(p.mem, p.start) + 2 <= |p.mem|
    ensures EthType(p.mem, p.start, p.end, p.stray) == U16(p.mem, TypeOff(p.mem, p.start))
  {
  }

  lemma PushRefused(p: Packet, q: Packet, ethType: int)
    requires Editable(p) && p.hdrs != [] && p.start < TAG_HDR && 0 <= ethType < 0x1_0000
    requires q == p.(mem := SetType(p.mem, p.start, ethType))
    ensures q == Tags.PushVlan(p, ethType) == Tags.PushMpls(p, ethType) && WellFormed(q)
  {
  }

  /** The packet in which a push has made room for the tag. */
  ghost function Begun(p: Packet, ethType: int): Packet
    requires Editable(p) && p.hdrs != [] && p.start >= TAG_HDR && 0 <= ethType < 0x1_0000
  {
    EtherFirst(p);
    p.(mem := InsertTag(SetType(p.mem, p.start, ethType), p.start, [0, 0, 0, 0]), start := p.start - TAG_HDR,
       hdrs := [Header(Ether, p.start - TAG_HDR, ETH_HDR)] + p.hdrs[1..])
  }

  lemma BegunFits(p: Packet, ethType: int)
    requires Editable(p) && p.hdrs != [] && p.start >= TAG_HDR && 0 <= ethType < 0x1_0000
    ensures p.start + ETH_HDR <= |p.mem| == |SetType(p.mem, p.start, ethType)| == |Begun(p, ethType).mem|
    ensures TypeOff(p.mem, p.start) + 2 <= |p.mem|
  {
    EtherFirst(p);
  }

  lemma PushVlanDone(p: Packet, q: Packet, ethType: int)
    requires Editable(p) && p.hdrs != [] && p.start >= TAG_HDR && 0 <= ethType < 0x1_0000
    requires var tag := VlanBytes(OuterVlan(p), U16(p.mem, TypeOff(p.mem, p.start)));
             && q.mem == InsertTag(SetType(p.mem, p.start, ethType), p.start, tag)
             && q.start == p.start - TAG_HDR && q.end == p.end && q.stray == p.stray
             && q.hdrs == Second([Header(Ether, q.start, ETH_HDR)] + p.hdrs[1..],
                   Header(Vlan, q.start + ETH_HDR, TAG_HDR))
             && q.match_ == p.match_.(vlan := Some(OuterVlan(p)))
    ensures q == Tags.PushVlan(p, ethType) && WellFormed(q)
  {
    hide InsertTag, SetType, VlanBytes, TotalLen, OuterVlan;
    assert ([Header(Ether, q.start, ETH_HDR)] + p.hdrs[1..])[1..] == p.hdrs[1..];
    PushWellFormed(p, ethType, Vlan, VlanBytes(OuterVlan(p), U16(p.mem, TypeOff(p.mem, p.start))));
  }

  lemma PushMplsDone(p: Packet, q: Packet, ethType: int)
    requires Editable(p) && p.hdrs != [] && p.start >= TAG_HDR && 0 <= ethType < 0x1_0000
    requires var (t, ttl, bos) := OuterMpls(p);
             && q.mem == InsertTag(SetType(p.mem, p.start, ethType), p.start, MplsBytes(t, ttl, bos))
             && q.start == p.start - TAG_HDR && q.end == p.end && q.stray == p.stray
             && q.hdrs == Second([Header(Ether, q.start, ETH_HDR)] + p.hdrs[1..],
                   Header(Mpls, q.start + ETH_HDR, TAG_HDR))
             && q.match_ == p.match_.(ethType := Some(ethType), mpls := Some(t))
    ensures q == Tags.PushMpls(p, ethType) && WellFormed(q)
  {
    hide InsertTag, SetType, MplsBytes, TotalLen, OuterMpls;
    var (t, ttl, bos) := OuterMpls(p);
    assert ([Header(Ether, q.start, ETH_HDR)] + p.hdrs[1..])[1..] == p.hdrs[1..];
    PushWellFormed(p, ethType, Mpls, MplsBytes(t, ttl, bos));
  }

  lemma PopVlanNothing(p: Packet)
    requires Editable(p) && First(p.hdrs, Vlan) == None
    ensures Tags.PopVlan(p) == p
  {
  }

  lemma PopMplsNothing(p: Packet, ethType: int)
    requires Editable(p) && 0 <= ethType < 0x1_0000 && (|p.hdrs| < 2 || p.hdrs[1].kind != Mpls)
    ensures Tags.PopMpls(p, ethType) == p
  {
  }

  lemma PopReady(p: Packet, k: nat)
    requires Editable(p) && k < |p.hdrs| && IsTag(p.hdrs[k].kind)
    ensures 0 < k && p.hdrs[k].off + TAG_HDR <= |p.mem| && p.start + ETH_HDR + TAG_HDR <= p.end <= |p.mem|
  {
    assert Sound(p.hdrs[k], p.end);
    TagFits(p, k);
  }

  lemma TagReady(p: Packet, k: nat)
    requires Editable(p) && 0 < k < |p.hdrs| && IsTag(p.hdrs[k].kind)
    ensures p.hdrs[0].kind == Ether && p.hdrs[k].len == TAG_HDR && p.start + ETH_HDR + TAG_HDR <= p.end <= |p.mem|
    ensures TypeOff(p.mem, p.start) + 2 <= |p.mem|
  {
    assert Sound(p.hdrs[k], p.end);
    TagFits(p, k);
  }

  lemma SecondIsFirst(p: Packet, k: Kind)
    requires WellFormed(p) && |p.hdrs| > 1 && p.hdrs[1].kind == k && IsTag(k)
    ensures First(p.hdrs, k) == Some(1)
  {
    FirstIs(p.hdrs, k, 1);
  }

  lemma WithoutBehind(h: Header, hs: seq<Header>, k: nat)
    requires 0 < k <= |hs|
    ensures Without([h] + hs, k) == [h] + Without(hs, k - 1)
  {
  }

  lemma PopDone(p: Packet, q: Packet, k: nat, ethType: int)
    requires Editable(p) && 0 < k < |p.hdrs| && IsTag(p.hdrs[k].kind) && 0 <= ethType < 0x1_0000
    requires p.start + ETH_HDR + TAG_HDR <= p.end
    requires q.mem == RemoveTag(SetType(p.mem, p.start, ethType), p.start)
    requires q.start == p.start + TAG_HDR && q.end == p.end && q.stray == p.stray
    requires q.hdrs == Without([Header(Ether, q.start, ETH_HDR)] + p.hdrs[1..], k)
    ensures q.(match_ := p.match_) == Pop(p, k, ethType) && WellFormed(q)
  {
    hide RemoveTag, SetType, TotalLen, Without;
    PopReady(p, k);
    WithoutBehind(Header(Ether, q.start, ETH_HDR), p.hdrs[1..], k);
    PopWellFormed(p, k, ethType);
  }

  lemma PopVlanDone(p: Packet, q: Packet, k: nat)
    requires Editable(p) && First(p.hdrs, Vlan) == Some(k) && p.hdrs[k].off + TAG_HDR <= |p.mem| && 0 < k
    requires p.start + ETH_HDR + TAG_HDR <= p.end
    requires q.mem == RemoveTag(SetType(p.mem, p.start, U16(p.mem, p.hdrs[k].off + 2)), p.start)
    requires q.start == p.start + TAG_HDR && q.end == p.end && q.stray == p.stray && q.start + ETH_HDR <= q.end
    requires q.hdrs == Without([Header(Ether, q.start, ETH_HDR)] + p.hdrs[1..], k)
    requires q.match_ == p.match_.(vlan := None, ethType := Some(TypeOf(q)))
    ensures q == Tags.PopVlan(p) && WellFormed(q)
  {
    hide RemoveTag, SetType, TotalLen, Without, EthType, WellFormed;
    PopDone(p, q, k, U16(p.mem, p.hdrs[k].off + 2));
  }

  lemma PopMplsDone(p: Packet, q: Packet, ethType: int)
    requires Editable(p) && |p.hdrs| > 1 && p.hdrs[1].kind == Mpls && 0 <= ethType < 0x1_0000
    requires p.start + ETH_HDR + TAG_HDR <= p.end
    requires q.mem == RemoveTag(SetType(p.mem, p.start, ethType), p.start)
    requires q.start == p.start + TAG_HDR && q.end == p.end && q.stray == p.stray && q.start + ETH_HDR <= q.end
    requires q.hdrs == Without([Header(Ether, q.start, ETH_HDR)] + p.hdrs[1..], 1)
    requires q.match_ == p.match_.(mpls := None, ethType := Some(TypeOf(q)))
    ensures q == Tags.PopMpls(p, ethType) && WellFormed(q)
  {
    hide RemoveTag, SetType, TotalLen, Without, EthType, WellFormed;
    PopDone(p, q, 1, ethType);
  }

  lemma EtherFirst(p: Packet)
    requires WellFormed(p)
    ensures First(p.hdrs, Ether) == if p.hdrs == [] then None else Some(0)
    ensures p.hdrs != [] ==> p.start + ETH_HDR <= p.end <= |p.mem|
  {
  }

  lemma InsertTagFilled(m: seq<byte>, s: nat, tag: seq<byte>, n: seq<byte>)
    requires |tag| == TAG_HDR <= s && s + ETH_HDR <= |m| == |n|
    requires n[s + 10..s + ETH_HDR] == tag
    requires forall j :: 0 <= j < |n| && !(s + 10 <= j < s + ETH_HDR) ==> n[j] == InsertTag(m, s, [0, 0, 0, 0])[j]
    ensures n == InsertTag(m, s, tag)
  {
    forall j | 0 <= j < |n|
      ensures n[j] == InsertTag(m, s, tag)[j]
    {
      if s + 10 <= j < s + ETH_HDR {
        assert n[j] == n[s + 10..s + ETH_HDR][j - s - 10];
      }
    }
  }

  /** The match of a classified packet: the ethertype read from the Ethernet header, overwritten by
      the VLAN tags, and the first tag of either kind. */
  function ClassifyMatch(m: seq<byte>, start: nat, end: nat, stray: int, f: Match): Match
    requires start <= end <= |m|
    requires TagsInside(m, Headers.Classify(m, start, end, stray))
  {
    if end - start < ETH_HDR then f
    else NoteAll(m, f.(ethType := Some(EthType(m, start, end, stray))), Headers.Classify(m, start, end, stray))
  }

  lemma ClassifyWellFormed(m: seq<byte>, start: nat, end: nat, stray: int)
    requires start <= end <= |m|
    ensures var hs := Headers.Classify(m, start, end, stray);
            && TagsInside(m, hs)
            && forall p: Packet :: p.mem == m && p.start == start && p.end == end && p.hdrs == hs ==> WellFormed(p)
  {
    var hs := Headers.Classify(m, start, end, stray);
    ClassifyContiguous(m, start, end, stray);
    ContiguousTotal(hs, start, end);
    assert forall i :: 0 < i < |hs| ==> Sound(hs[i], end);
  }

  lemma ClassifyNothing(m: seq<byte>, start: nat, end: nat, stray: int)
    requires start <= end <= |m| && end - start < ETH_HDR
    ensures Headers.Classify(m, start, end, stray) == []
  {
  }

  lemma ClassifyStep(m: seq<byte>, start: nat, end: nat, stray: int, f: Match)
    requires start + ETH_HDR <= end <= |m|
    requires TagsInside(m, Headers.Classify(m, start, end, stray))
    ensures var rest := Parse(m, LayerOfType(EthType(m, start, end, stray)), start + ETH_HDR, end);
            var hs := Headers.Classify(m, start, end, stray);
            && hs == [] + [Header(Ether, start, ETH_HDR)] + rest
            && TagsInside(m, rest) && NoteAll(m, f, hs) == NoteAll(m, f, rest)
  {
    hide Parse, EthType, LayerOfType;
    var rest := Parse(m, LayerOfType(EthType(m, start, end, stray)), start + ETH_HDR, end);
    var hs := Headers.Classify(m, start, end, stray);
    assert hs == [hs[0]] + rest && hs[1..] == rest;
    assert forall i :: 0 <= i < |rest| ==> rest[i] == hs[i + 1];
  }

  /** One step of the parser, on the list and on the match. */
  lemma ParseStep(m: seq<byte>, f: Match, k: Kind, off: nat, end: nat)
    requires k != Ether && off <= end <= |m|
    requires TagsInside(m, Parse(m, k, off, end))
    ensures !Fits(m, k, off, end) ==> Parse(m, k, off, end) == [] && NoteAll(m, f, Parse(m, k, off, end)) == f
    ensures Fits(m, k, off, end) ==>
              var h := Header(k, off, Extent(k, off, end));
              var rest := match Next(m, k, off) case None => [] case Some(k') => Parse(m, k', off + Size(k), end);
              && Parse(m, k, off, end) == [h] + rest
              && TagsInside(m, rest)
              && NoteAll(m, f, Parse(m, k, off, end)) == NoteAll(m, Note(m, f, h), rest)
              && NoteAll(m, Note(m, f, h), []) == Note(m, f, h)
  {
    hide *;
    ParseUnfolds(m, k, off, end);
    if Fits(m, k, off, end) {
      var h := Header(k, off, Extent(k, off, end));
      var rest := match Next(m, k, off) case None => [] case Some(k') => Parse(m, k', off + Size(k), end);
      NoteStep(m, f, h, rest);
    } else {
      NoteNone(m, f);
    }
  }

  lemma NoteStep(m: seq<byte>, f: Match, h: Header, rest: seq<Header>)
    requires TagsInside(m, [h] + rest)
    ensures TagsInside(m, rest) && (IsTag(h.kind) ==> h.off + TAG_HDR <= |m|)
    ensures NoteAll(m, f, [h] + rest) == NoteAll(m, Note(m, f, h), rest)
    ensures TagsInside(m, []) && NoteAll(m, Note(m, f, h), []) == Note(m, f, h)
  {
    var hs := [h] + rest;
    assert hs[0] == h && hs[1..] == rest;
    assert forall i :: 0 <= i < |rest| ==> rest[i] == hs[i + 1];
  }

  lemma NoteNone(m: seq<byte>, f: Match)
    ensures TagsInside(m, []) && NoteAll(m, f, []) == f
  {
  }
}
