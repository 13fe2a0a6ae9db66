/** For each way in which the tag operations fail their purpose, a received frame at which they do. */
module PacketInputs {
  import opened Bytes
  import opened Wrappers
  import opened Headers
  import opened Tags
  import opened TagLaws
  import opened Reclassify
  import opened ReclassifyLlc

  /** The octets every packet keeps in front of the frame it was made from. */
  const HEADROOM: nat := 64

  /** A packet as its constructor and the classifier leave it. */
  function Received(frame: seq<byte>): (p: Packet)
    requires |frame| >= ETH_HDR
    ensures p.stray == 0 && p.start == HEADROOM && p.end == |p.mem| == HEADROOM + |frame| && p.mem[HEADROOM..] == frame
    ensures Agrees(p) && p.hdrs != [] && p.hdrs[0] == Header(Ether, HEADROOM, ETH_HDR)
  {
    var m, end := Zeros(HEADROOM) + frame, HEADROOM + |frame|;
    var hs := Classify(m, HEADROOM, end, 0);
    var t := EthType(m, HEADROOM, end, 0);
    ClassifiedMatch(m, HEADROOM, end, 0, t);
    Packet(m, HEADROOM, end, hs, NoteAll(m, EMPTY_MATCH.(ethType := Some(t)), hs), 0)
  }

  lemma FieldOf(frame: seq<byte>, i: nat)
    requires ETH_HDR <= |frame| && i + 2 <= |frame|
    ensures U16(Received(frame).mem, HEADROOM + i) == U16(frame, i)
  {
    Shifted(Received(frame).mem, HEADROOM, i);
  }

  lemma ReceivedTidy(frame: seq<byte>)
    requires 22 <= |frame|
    ensures Tidy(Received(frame)) && Editable(Received(frame))
    ensures IsLlc(Received(frame).mem, HEADROOM) <==> U16(frame, 12) < MIN_ETHERTYPE
  {
    AgreesIsTidy(Received(frame));
    FieldOf(frame, 12);
  }

  const ADDRESSES: seq<byte> := [2, 0, 0, 0, 0, 1, 2, 0, 0, 0, 0, 2]

  /** Length 8, then the SNAP header of an IPv4 packet. */
  const SNAP: seq<byte> := ADDRESSES + [0, 8, 0xaa, 0xaa, 3, 0, 0, 0, 8, 0]

  /** Length 12, then a SNAP header with a VLAN tag. */
  const TAGGED_SNAP: seq<byte> := ADDRESSES + [0, 12, 0xaa, 0xaa, 3, 0, 0, 0, 0x81, 0, 0, 1, 8, 0]

  /** One MPLS label, 1, at the bottom of its stack. */
  const LABELLED: seq<byte> := ADDRESSES + [0x88, 0x47, 0, 0, 0x11, 64, 0, 0, 0, 0]

  const IPV4_FRAME: seq<byte> := ADDRESSES + [8, 0, 0x45, 0, 0, 20, 0, 0, 0, 0]

  /** The first fragment of a UDP packet, with more to come. */
  const FRAGMENT: seq<byte> :=
    ADDRESSES + [8, 0] + [0x45, 0, 0, 28, 0, 0, 0x20, 0, 64, 17, 0, 0, 10, 0, 0, 1, 10, 0, 0, 2, 0, 1, 0, 2, 0, 8, 0, 0]

  /** The fragment is listed with its UDP header, as if it were the whole packet. */
  lemma FragmentTakenForWhole()
    ensures var p := Received(FRAGMENT);
            && MoreFragments(p.mem, HEADROOM + ETH_HDR)
            && |p.hdrs| > 2 && p.hdrs[1].kind == Ipv4 && p.hdrs[2].kind == Udp
  {
    hide Received, MoreFragments;
    FragmentOctets();
    FragmentListed(FRAGMENT);
  }

  lemma FragmentOctets()
    ensures |FRAGMENT| == 42 && U16(FRAGMENT, 12) == 0x800 && U16(FRAGMENT, 20) == 0x2000 && FRAGMENT[23] == 17
  {
  }

  lemma FragmentListed(frame: seq<byte>)
    requires |frame| == 42 && U16(frame, 12) == 0x800 && U16(frame, 20) == 0x2000 && frame[23] == 17
    ensures var p := Received(frame);
            && MoreFragments(p.mem, HEADROOM + ETH_HDR)
            && |p.hdrs| > 2 && p.hdrs[1].kind == Ipv4 && p.hdrs[2].kind == Udp
  {
    var p, off := Received(frame), HEADROOM + ETH_HDR;
    hide Received, Parse, Classify, Agrees;
    FieldOf(frame, 12);
    FieldOf(frame, 20);
    assert p.mem[off + 9] == p.mem[HEADROOM..][23];
    AgreesIsClassify(p);
    ClassifyIs(p.mem, p.start, p.end, p.stray, Ipv4);
    Ipv4Parse(p.mem, off, p.end);
    ParseStarts(p.mem, Udp, off + 20, p.end);
  }

  lemma AgreesIsClassify(p: Packet)
    requires Agrees(p)
    ensures p.start <= p.end <= |p.mem| && p.hdrs == Classify(p.mem, p.start, p.end, p.stray)
  {
  }

  /** A tag pushed onto a SNAP frame: the list is not what the octets say, and the pop does not give the
      octets back. */
  lemma SnapPushFails()
    ensures var p := Received(SNAP);
            && Editable(p) && Editable(PushVlan(p, 0x8100))
            && !Agrees(PushVlan(p, 0x8100))
            && !Same(PopVlan(PushVlan(p, 0x8100)), p)
  {
    var p := Received(SNAP);
    hide PushVlan, PopVlan, Received, Parse, Classify;
    ReceivedTidy(SNAP);
    FieldOf(SNAP, 16);
    PushVlanLlcAgreesIff(p, 0x8100);
    PushPopVlanIff(p, 0x8100);
    assert U16(p.mem[p.start..], 16) == 0x300;
  }

  /** A tag popped from a SNAP frame: the list is not what the octets say. */
  lemma SnapPopFails()
    ensures var p := Received(TAGGED_SNAP);
            Editable(p) && First(p.hdrs, Vlan) == Some(1) && !Agrees(PopVlan(p))
  {
    hide PopVlan, Received;
    SnapPop(TAGGED_SNAP);
  }

  lemma SnapPop(frame: seq<byte>)
    requires |frame| == 26 && U16(frame, 12) < MIN_ETHERTYPE
    requires U16(frame, 16) == 0x300 && U16(frame, 20) == 0x8100 && U16(frame, 24) == 0x800
    ensures var p := Received(frame);
            Editable(p) && First(p.hdrs, Vlan) == Some(1) && !Agrees(PopVlan(p))
  {
    var p := Received(frame);
    hide PopVlan, Received, Parse, Classify, U16, First, Agrees, Tidy, Editable, IsLlc, LayerOfType, TypeAfterPop, Fits;
    ReceivedTidy(frame);
    FieldOf(frame, 16);
    FieldOf(frame, 20);
    TypeLeft(frame);
    SnapLayers(p.mem, p.start + 18, p.end);
    TagListed(frame, 20, Vlan);
    PopVlanLlcAgreesIff(p);
  }

  lemma TypeLeft(frame: seq<byte>)
    requires |frame| == 26
    ensures TypeAfterPop(Received(frame)) == U16(frame, 24)
  {
    hide Received, U16;
    FieldOf(frame, 24);
  }

  lemma SnapLayers(m: seq<byte>, off: nat, end: nat)
    requires off < end <= |m|
    ensures LayerOfType(0x300) == Payload && LayerOfType(0x800) == Ipv4 && LayerOfType(0x8100) == Vlan
    ensures Fits(m, Payload, off, end)
  {
  }

  lemma TagListed(frame: seq<byte>, i: nat, k: Kind)
    requires 22 <= |frame| && i + 2 <= |frame| && IsTag(k) && LayerOfType(U16(frame, i)) == k
    requires i == if U16(frame, 12) < MIN_ETHERTYPE then 20 else 12
    ensures First(Received(frame).hdrs, k) == Some(1)
  {
    var p := Received(frame);
    hide Parse, Classify, LayerOfType, First, Received;
    FieldOf(frame, 12);
    FieldOf(frame, i);
    var off := HEADROOM + ETH_HDR;
    ClassifyIs(p.mem, p.start, p.end, 0, k);
    ParseStarts(p.mem, k, off, p.end);
    FirstBehind(Header(Ether, p.start, ETH_HDR), Parse(p.mem, k, off, p.end), k);
    FirstAt(Parse(p.mem, k, off, p.end), k);
  }

  lemma FirstAt(hs: seq<Header>, k: Kind)
    requires hs != [] && hs[0].kind == k
    ensures First(hs, k) == Some(0)
  {
  }

  /** A label pushed onto label 1: the match says 1 again, the octets say 0. */
  lemma LabelLost()
    ensures var p := Received(LABELLED);
            Editable(p) && var q := PushMpls(p, 0x8847);
            && TagSecond(q, Mpls) && q.match_.mpls == Some(MplsTag(1, 0))
            && MplsAt(q.mem, q.start + ETH_HDR) != MplsTag(1, 0)
  {
    var p := Received(LABELLED);
    hide PushMpls, Received, Parse, Classify, Contiguous, TotalLen, MplsAt, First;
    ReceivedTidy(LABELLED);
    TagListed(LABELLED, 12, Mpls);
    LabelRead();
    assert Outermost(p.hdrs, 1, Mpls);
    PushedMplsInheritsIff(p, 0x8847);
  }

  lemma LabelRead()
    requires First(Received(LABELLED).hdrs, Mpls) == Some(1) && Tidy(Received(LABELLED))
    ensures var p := Received(LABELLED);
            |p.hdrs| > 1 && p.hdrs[1].off + TAG_HDR <= |p.mem| && MplsAt(p.mem, p.hdrs[1].off) == MplsTag(1, 0)
  {
    var p := Received(LABELLED);
    hide Received, TotalLen, First;
    ContiguousOrder(p.hdrs, p.start, p.end, 0, 1);
    var off := HEADROOM + ETH_HDR;
    assert p.hdrs[1].off == off && IsTag(p.hdrs[1].kind);
    assert p.mem[off] == p.mem[HEADROOM..][14] && p.mem[off + 1] == p.mem[HEADROOM..][15]
        && p.mem[off + 2] == p.mem[HEADROOM..][16];
  }

  /** A VLAN tag with priority 3 and id 5 in front of an IPv4 packet. */
  const TAGGED: seq<byte> := ADDRESSES + [0x81, 0, 0x60, 0x05, 8, 0, 0x45, 0, 0, 20]

  /** The tag pushed onto it holds priority 3 and id 5 again. */
  lemma TagInherited()
    ensures var p := Received(TAGGED);
            Editable(p) && var q := PushVlan(p, 0x8100);
            && TagSecond(q, Vlan) && q.match_.vlan == Some(VlanTag(5, 3))
            && q.mem[q.start + ETH_HDR] % 16 == 0 && q.mem[q.start + ETH_HDR] / 32 == 3
            && q.mem[q.start + ETH_HDR + 1] == 5
  {
    var p := Received(TAGGED);
    hide PushVlan, Received, Parse, Classify, Contiguous, TotalLen, First;
    ReceivedTidy(TAGGED);
    TagListed(TAGGED, 12, Vlan);
    TagRead();
    assert Outermost(p.hdrs, 1, Vlan);
    PushedVlanInherits(p, 0x8100);
  }

  lemma TagRead()
    requires First(Received(TAGGED).hdrs, Vlan) == Some(1) && Tidy(Received(TAGGED))
    ensures var p := Received(TAGGED);
            |p.hdrs| > 1 && p.hdrs[1].off + TAG_HDR <= |p.mem| && VlanAt(p.mem, p.hdrs[1].off) == VlanTag(5, 3)
  {
    var p := Received(TAGGED);
    hide Received, TotalLen, First;
    ContiguousOrder(p.hdrs, p.start, p.end, 0, 1);
    var off := HEADROOM + ETH_HDR;
    assert p.hdrs[1].off == off && IsTag(p.hdrs[1].kind);
    assert p.mem[off] == p.mem[HEADROOM..][14] && p.mem[off + 1] == p.mem[HEADROOM..][15];
  }

  /** n pushes of an 802.1Q tag. */
  function Pushes(n: nat): (ops: seq<Op>)
    ensures |ops| == n
  {
    seq(n, _ => OpPushVlan(0x8100))
  }

  lemma {:induction false} PushesRun(p: Packet, current: int, n: nat)
    requires Plain(p, current) && n * TAG_HDR <= p.start
    ensures var q := Exec(p, Pushes(n));
            q.start == p.start - n * TAG_HDR && Plain(q, if n == 0 then current else 0x8100)
    decreases n
  {
    var ops := Pushes(n);
    if n > 0 {
      var q := PushVlan(p, 0x8100);
      assert ops[0] == OpPushVlan(0x8100) && ops[1..] == Pushes(n - 1);
      hide PushVlan, PopVlan, Plain, Pushes, Apply;
      PushOnce(p, current);
      PushesRun(q, 0x8100, n - 1);
    }
  }

  lemma PushOnce(p: Packet, current: int)
    requires Plain(p, current) && TAG_HDR <= p.start
    ensures var q := Apply(p, OpPushVlan(0x8100)); Plain(q, 0x8100) && q.start == p.start - TAG_HDR
    ensures Editable(p) && Apply(p, OpPushVlan(0x8100)) == PushVlan(p, 0x8100)
  {
    var q := PushVlan(p, 0x8100);
    hide PushVlan, PopVlan, Contiguous, TotalLen;
    VlanScopeRestores(p, current, 0x8100, q);
    ApplyVlan(p, current, 0x8100, q);
  }

  /** At every received Ethernet II frame: when as many tags are pushed as the headroom has room for, one more
      push is refused, and has changed the type. */
  lemma OnePushTooManySpoils(frame: seq<byte>, n: nat)
    requires |frame| >= 22 && U16(frame, 12) >= MIN_ETHERTYPE && 0 < n && n * TAG_HDR == HEADROOM
    ensures var q := Exec(Received(frame), Pushes(n));
            Editable(q) && PushStatus(q) == OutOfRange && PushVlan(q, 0x88a8) != q
  {
    var p, t := Received(frame), U16(frame, 12);
    ReceivedPlain(frame);
    PushesRun(p, t, n);
    var q := Exec(p, Pushes(n));
    hide *;
    PlainEditable(q, 0x8100);
    assert q.start == 0;
    RefusedPushIff(q, 0x88a8);
  }

  lemma ReceivedPlain(frame: seq<byte>)
    requires |frame| >= 22 && U16(frame, 12) >= MIN_ETHERTYPE
    ensures Plain(Received(frame), U16(frame, 12))
  {
    hide Received, Contiguous, TotalLen, U16;
    ReceivedTidy(frame);
    FieldOf(frame, 12);
  }

  lemma PlainEditable(p: Packet, ethType: int)
    requires Plain(p, ethType)
    ensures Editable(p) && p.hdrs != [] && TypeOff(p.mem, p.start) == p.start + 12
    ensures U16(p.mem, p.start + 12) == ethType
    ensures PushStatus(p) == if p.start < TAG_HDR then OutOfRange else Done
  {
    hide Contiguous, TotalLen, U16;
  }

  /** A length pushed for a type turns the frame into an 802.3 frame, and the pop does not turn it back. */
  lemma ShortTypeSpoils()
    ensures var p := Received(IPV4_FRAME); !Same(Exec(p, [OpPushVlan(0x5FF), OpPopVlan]), p)
  {
    hide Received, Exec, Same;
    assert |IPV4_FRAME| == 22 && U16(IPV4_FRAME, 12) == 0x800;
    ReceivedPlain(IPV4_FRAME);
    var s := VlanScope(0x5FF, Empty, Empty);
    assert Flatten(s, 0x800) == [OpPushVlan(0x5FF), OpPopVlan];
    NestedRunRestoresIff(Received(IPV4_FRAME), s, 0x800);
  }
}
