/** Tags on IEEE 802.3 frames, whose type stands eight octets further back, behind an LLC/SNAP header:
    exactly when the frame list edited by a push or a pop is still the one a classification would give. */
module ReclassifyLlc {
  import opened Bytes
  import opened Wrappers
  import opened Headers
  import opened Tags
  import opened TagLaws
  import opened Reclassify

  // ---- what parsing makes of octets that a push or a pop has overwritten ------------------------

  /** What an MPLS header at off announces. */
  function Below(m: seq<byte>, off: nat): (k: Kind)
    requires off + TAG_HDR <= |m|
    ensures k != Ether
  {
    if m[off + 2] % 2 == 1 then Payload else Mpls
  }

  lemma ParseMpls(m: seq<byte>, off: nat, end: nat)
    requires off + TAG_HDR <= end <= |m|
    ensures Parse(m, Mpls, off, end) == [Header(Mpls, off, TAG_HDR)] + Parse(m, Below(m, off), off + TAG_HDR, end)
  {
    hide Parse;
    ParseUnfolds(m, Mpls, off, end);
  }

  /** Behind an MPLS header two lists differ where what follows it differs. */
  lemma MplsHead(m: seq<byte>, n: seq<byte>, off: nat, end: nat)
    requires off + TAG_HDR <= end <= |m| && end <= |n|
    ensures Parse(n, Mpls, off, end) == Parse(m, Mpls, off, end)
            <==> Parse(n, Below(n, off), off + TAG_HDR, end) == Parse(m, Below(m, off), off + TAG_HDR, end)
  {
    hide *;
    ParseMpls(m, off, end);
    ParseMpls(n, off, end);
    var a, b := Parse(n, Below(n, off), off + TAG_HDR, end), Parse(m, Below(m, off), off + TAG_HDR, end);
    SameTail(Header(Mpls, off, TAG_HDR), a, b);
  }

  /** Behind a VLAN header too. */
  lemma VlanHead(m: seq<byte>, n: seq<byte>, off: nat, end: nat)
    requires off + TAG_HDR <= end <= |m| && end <= |n|
    ensures Parse(n, Vlan, off, end) == Parse(m, Vlan, off, end)
            <==> Parse(n, LayerOfType(U16(n, off + 2)), off + TAG_HDR, end)
                 == Parse(m, LayerOfType(U16(m, off + 2)), off + TAG_HDR, end)
  {
    hide Parse, LayerOfType, U16;
    ParseVlan(m, off, end);
    ParseVlan(n, off, end);
    var a := Parse(n, LayerOfType(U16(n, off + 2)), off + TAG_HDR, end);
    var b := Parse(m, LayerOfType(U16(m, off + 2)), off + TAG_HDR, end);
    SameTail(Header(Vlan, off, TAG_HDR), a, b);
  }

  /** Two lists that begin with frames of different kinds are different unless both are empty. */
  lemma KindsDiffer(m: seq<byte>, j: Kind, n: seq<byte>, k: Kind, off: nat, end: nat)
    requires j != k && j != Ether && k != Ether && off <= end <= |m| && end <= |n|
    ensures Parse(m, j, off, end) == Parse(n, k, off, end) <==> !Fits(m, j, off, end) && !Fits(n, k, off, end)
  {
    ParseStarts(m, j, off, end);
    ParseStarts(n, k, off, end);
  }

  lemma ParseStarts(m: seq<byte>, k: Kind, off: nat, end: nat)
    requires k != Ether && off <= end <= |m|
    ensures Fits(m, k, off, end) ==> |Parse(m, k, off, end)| > 0 && Parse(m, k, off, end)[0].kind == k
    ensures !Fits(m, k, off, end) ==> Parse(m, k, off, end) == []
  {
    hide *;
    ParseUnfolds(m, k, off, end);
  }

  /** The high octet of a VLAN type. */
  lemma VlanTypeOctet(m: seq<byte>, i: nat)
    requires i + 2 <= |m| && IsVlanType(U16(m, i))
    ensures if U16(m, i) == 0x8100 then m[i] == 0x81 else m[i] == 0x88
  {
  }

  lemma MplsTypeOctet(m: seq<byte>, i: nat)
    requires i + 2 <= |m| && IsMplsType(U16(m, i))
    ensures m[i] == 0x88
  {
  }

  /** What a push behind an LLC header leaves of the layers: T was the type of the frame, and the two
      octets where it stood, six behind the Ethernet header, now hold the type e. */
  predicate PushKeepsLayers(m: seq<byte>, off: nat, end: nat, e: int)
    requires off + 8 <= end <= |m|
  {
    var k := LayerOfType(U16(m, off + 6));
    && !(k == Ipv4 && off + Size(Ipv4) <= end && Fits(m, LayerOfIpv4Proto(m[off + 9]), off + Size(Ipv4), end))
    && !(k == Mpls && U16(m, off + 2) != 0x8100 && e == 0x8100 && off + 8 < end)
  }

  lemma RewrittenIpv4(m: seq<byte>, n: seq<byte>, off: nat, end: nat)
    requires off + 8 <= end <= |m| == |n| && m[off + 6] < 0x80 <= n[off + 6]
    ensures Parse(n, Ipv4, off, end) == Parse(m, Ipv4, off, end)
            <==> !(off + Size(Ipv4) <= end && Fits(m, LayerOfIpv4Proto(m[off + 9]), off + Size(Ipv4), end))
  {
    if off + Size(Ipv4) <= end {
      hide Parse, Fits, LayerOfIpv4Proto;
      Ipv4EndsIff(m, off, end);
      Ipv4EndsIff(n, off, end);
    } else {
      ParseStarts(m, Ipv4, off, end);
      ParseStarts(n, Ipv4, off, end);
    }
  }

  lemma RewrittenMpls(m: seq<byte>, n: seq<byte>, off: nat, end: nat)
    requires off + 8 <= end <= |m| == |n| && n[off + 2] == m[off + 2] && m[off + 6] % 2 == 0
    requires forall i :: off + 8 <= i < end ==> n[i] == m[i]
    ensures Parse(n, Mpls, off, end) == Parse(m, Mpls, off, end)
            <==> !(m[off + 2] % 2 == 0 && n[off + 6] % 2 == 1 && off + 8 < end)
  {
    hide Parse, Fits;
    SameFrom(m, n, off + 8, end);
    MplsHead(m, n, off, end);
    if m[off + 2] % 2 == 1 {
      PayloadAlike(m, n, off + 4, end);
    } else {
      MplsHead(m, n, off + 4, end);
      BelowAlike(m, n, off + 8, end, n[off + 6] % 2 == 1);
    }
  }

  /** The same octets, read as labels that go on and as what n takes them for. */
  lemma BelowAlike(m: seq<byte>, n: seq<byte>, off: nat, end: nat, bottom: bool)
    requires off <= end <= |m| && end <= |n| && n[off..end] == m[off..end]
    ensures Parse(n, if bottom then Payload else Mpls, off, end) == Parse(m, Mpls, off, end) <==> !(bottom && off < end)
    ensures Parse(n, Mpls, off, end) == Parse(m, if bottom then Payload else Mpls, off, end) <==> !(bottom && off < end)
  {
    hide Parse;
    ParseDependsOnTail(n, m, Mpls, off, end);
    ParseAsPayload(n, Mpls, off, end);
    ParseAsPayload(m, Mpls, off, end);
    PayloadAlike(m, n, off, end);
  }

  /** A payload frame takes what is left, whatever it is. */
  lemma PayloadAlike(m: seq<byte>, n: seq<byte>, off: nat, end: nat)
    requires off <= end <= |m| && end <= |n|
    ensures Parse(m, Payload, off, end) == Parse(n, Payload, off, end)
  {
  }

  /** Two VLAN headers in a row, and what the second announces. */
  lemma RewrittenVlan(m: seq<byte>, n: seq<byte>, off: nat, end: nat)
    requires off + 8 <= end <= |m| == |n| && IsVlanType(U16(m, off + 2)) && U16(n, off + 2) == U16(m, off + 2)
    requires IsVlanType(U16(m, off + 6)) && IsVlanType(U16(n, off + 6))
    requires forall i :: off + 8 <= i < end ==> n[i] == m[i]
    ensures Parse(n, Vlan, off, end) == Parse(m, Vlan, off, end)
  {
    hide Parse, LayerOfType, U16;
    SameFrom(m, n, off + 8, end);
    VlanTypeOf(U16(m, off + 2));
    VlanHead(m, n, off, end);
    PoppedVlan(m, n, off + 4, end);
  }

  /** ARP, IPv6 and payload frames, and what follows them, do not show what stands in the octets. */
  lemma RewrittenOther(m: seq<byte>, n: seq<byte>, off: nat, end: nat, k: Kind)
    requires off + 8 <= end <= |m| == |n| && (k == Arp || k == Ipv6 || k == Payload)
    requires forall i :: off <= i < end && i != off + 6 && i != off + 7 ==> n[i] == m[i]
    requires k == Ipv6 ==> m[off + 6] == 0x86 && (n[off + 6] == 0x81 || n[off + 6] == 0x88)
    ensures Parse(n, k, off, end) == Parse(m, k, off, end)
  {
    assert Fits(n, k, off, end) == Fits(m, k, off, end);
    hide Parse;
    if Fits(m, k, off, end) && k != Payload {
      assert Next(m, k, off) == Next(n, k, off) == Some(Payload);
      assert m[off + Size(k)..end] == n[off + Size(k)..end];
      ParseAlike(m, n, off, end, k);
    } else {
      PayloadAlike(m, n, off, end);
      ParseStarts(m, k, off, end);
      ParseStarts(n, k, off, end);
    }
  }

  lemma PushedLayers(m: seq<byte>, n: seq<byte>, off: nat, end: nat)
    requires off + 8 <= end <= |m| == |n| && IsVlanType(U16(m, off + 2)) && IsVlanType(U16(n, off + 6))
    requires forall i :: off <= i < end && i != off + 6 && i != off + 7 ==> n[i] == m[i]
    ensures var k := LayerOfType(U16(m, off + 6));
            Parse(n, k, off, end) == Parse(m, k, off, end) <==> PushKeepsLayers(m, off, end, U16(n, off + 6))
  {
    hide Parse, Fits, LayerOfIpv4Proto;
    var k := LayerOfType(U16(m, off + 6));
    assert n[off + 2] == m[off + 2] && n[off + 3] == m[off + 3];
    VlanTypeOctet(m, off + 2);
    VlanTypeOctet(n, off + 6);
    match k
    case Vlan => RewrittenVlan(m, n, off, end);
    case Mpls => RewrittenMpls(m, n, off, end);
    case Ipv4 => RewrittenIpv4(m, n, off, end);
    case _ => RewrittenOther(m, n, off, end, k);
  }

  // ---- the push -------------------------------------------------------------------------------

  /** What a push of a VLAN tag onto an LLC frame leaves behind the tag: the octets as they were, but for
      the pushed type, which stands where the type of the frame stood. */
  lemma PushedTail(p: Packet, ethType: int)
    requires Tidy(p) && Editable(p) && TAG_HDR <= p.start && 0 <= ethType < 0x1_0000 && IsLlc(p.mem, p.start)
    ensures var q := PushVlan(p, ethType);
            |q.mem| == |p.mem| && U16(q.mem, p.start + 20) == ethType
            && forall i :: p.start + 14 <= i < p.end && i != p.start + 20 && i != p.start + 21 ==> q.mem[i] == p.mem[i]
  {
    hide InsertBytes, Contiguous, TotalLen, VlanBytes, OuterVlan, InsertTag, U16;
    var tag := VlanBytes(OuterVlan(p), U16(p.mem, TypeOff(p.mem, p.start)));
    var m := SetType(p.mem, p.start, ethType);
    InsertTagSuffix(m, p.start, tag);
    var q := PushVlan(p, ethType);
    assert q.mem == InsertTag(m, p.start, tag);
    TailAlike(q.mem, m, p.start + 14);
    SameField(q.mem, m, p.start + 20);
  }

  lemma TailAlike(n: seq<byte>, m: seq<byte>, from: nat)
    requires from <= |n| == |m| && n[from..] == m[from..]
    ensures forall i :: from <= i < |n| ==> n[i] == m[i]
  {
    forall i | from <= i < |n| ensures n[i] == m[i] {
      assert n[from..][i - from] == m[from..][i - from];
    }
  }

  lemma SameField(n: seq<byte>, m: seq<byte>, i: nat)
    requires i + 2 <= |n| == |m| && n[i] == m[i] && n[i + 1] == m[i + 1]
    ensures U16(n, i) == U16(m, i)
  {
  }

  /** On an LLC frame the list after push_vlan with a VLAN ethertype is the classification if and only if
      the two octets that move into the place of the type announce a VLAN tag, and the pushed type does not
      mislead what is parsed where it lands: as the flags of an IPv4 header with more to come, or as the
      bottom of a stack of MPLS labels that goes on. */
  lemma PushVlanLlcAgreesIff(p: Packet, ethType: int)
    requires Agrees(p) && p.hdrs != [] && TAG_HDR <= p.start && Editable(p)
    requires IsLlc(p.mem, p.start) && IsVlanType(ethType)
    ensures Agrees(PushVlan(p, ethType)) <==>
            IsVlanType(U16(p.mem, p.start + 16)) && PushKeepsLayers(p.mem, p.start + 14, p.end, ethType)
  {
    hide Parse, PushVlan, Contiguous, PushKeepsLayers, Fits, U16, Classify, Tidy, OuterVlan, TotalLen;
    AgreesIsTidy(p);
    PushVlanFacts(p, ethType);
    PushedTail(p, ethType);
    var q, off := PushVlan(p, ethType), p.start + ETH_HDR;
    var k := LayerOfType(U16(p.mem, p.start + 20));
    LlcClassified(p, k);
    DropOne(Header(Ether, p.start, ETH_HDR), Parse(p.mem, k, off, p.end));
    if IsVlanType(U16(p.mem, p.start + 16)) {
      PushedAgreesIff(q, p.hdrs[1..]);
      PushedLayers(p.mem, q.mem, off, p.end);
    } else {
      NoVlanFirst(q, p.hdrs[1..]);
    }
  }

  lemma DropOne<T>(a: T, rest: seq<T>)
    ensures ([a] + rest)[1..] == rest
  {
  }

  /** An LLC frame whose list begins with a VLAN tag that its type announces. */
  lemma PushedAgreesIff(q: Packet, hs: seq<Header>)
    requires q.start + 22 <= q.end <= |q.mem| && IsLlc(q.mem, q.start) && IsVlanType(U16(q.mem, q.start + 20))
    requires q.hdrs == [Header(Ether, q.start, ETH_HDR)] + ([Header(Vlan, q.start + ETH_HDR, TAG_HDR)] + hs)
    ensures Agrees(q) <==>
            hs == Parse(q.mem, LayerOfType(U16(q.mem, q.start + 16)), q.start + ETH_HDR + TAG_HDR, q.end)
  {
    hide Parse, U16, IsVlanType, LayerOfType, Classify;
    VlanTypeOf(U16(q.mem, q.start + 20));
    ClassifyIs(q.mem, q.start, q.end, q.stray, Vlan);
    ParseVlan(q.mem, q.start + ETH_HDR, q.end);
    var e, v := Header(Ether, q.start, ETH_HDR), Header(Vlan, q.start + ETH_HDR, TAG_HDR);
    var rest := Parse(q.mem, LayerOfType(U16(q.mem, q.start + 16)), q.start + ETH_HDR + TAG_HDR, q.end);
    SameTail(v, hs, rest);
    SameTail(e, [v] + hs, [v] + rest);
  }

  // ---- the pop --------------------------------------------------------------------------------

  /** The type an LLC frame reports once the tag behind its Ethernet header is gone. */
  function TypeAfterPop(p: Packet): int {
    if p.start + 26 <= p.end <= |p.mem| then U16(p.mem, p.start + 24) else p.stray
  }

  /** What a pop behind an LLC header leaves at the places a new classification reads. */
  lemma PopLlcFacts(p: Packet)
    requires Tidy(p) && Editable(p) && First(p.hdrs, Vlan) == Some(1) && IsLlc(p.mem, p.start)
    ensures p.start + 22 <= p.end && p.hdrs[1] == Header(Vlan, p.start + ETH_HDR, TAG_HDR)
    ensures var q := PopVlan(p);
            && q.start == p.start + TAG_HDR && q.end == p.end && q.stray == p.stray && |q.mem| == |p.mem|
            && q.hdrs == [Header(Ether, q.start, ETH_HDR)] + p.hdrs[2..]
            && IsLlc(q.mem, q.start) && U16(q.mem, p.start + 20) == U16(p.mem, p.start + 16)
            && forall i :: p.start + 18 <= i < p.end && i != p.start + 20 && i != p.start + 21 ==> q.mem[i] == p.mem[i]
  {
    TagFits(p, 1);
    assert Sound(p.hdrs[1], p.end);
    ContiguousOrder(p.hdrs, p.start, p.end, 0, 1);
    var t := U16(p.mem, p.start + 16);
    var off := p.start + 18;
    var q := PopVlan(p);
    var m := SetType(p.mem, p.start, t);
    hide Contiguous, TotalLen;
    RemoveTagSuffix(m, p.start);
    PopKeepsTidy(p, t);
    assert q.hdrs == [q.hdrs[0]] + q.hdrs[1..];
    assert q.mem == RemoveTag(m, p.start);
    TailAlike(q.mem, m, off);
    Shifted(m, p.start, 12);
    Shifted(q.mem, q.start, 12);
    RemovedBytes(m[p.start..]);
    SameField(q.mem, m, p.start + 20);
    SameField(m, p.mem, p.start + 12);
  }

  lemma LlcTagAnnounced(p: Packet)
    requires Agrees(p) && First(p.hdrs, Vlan) == Some(1) && IsLlc(p.mem, p.start) && p.start + 22 <= p.end
    ensures IsVlanType(U16(p.mem, p.start + 20))
    ensures p.hdrs[2..] == Parse(p.mem, LayerOfType(U16(p.mem, p.start + 16)), p.start + 18, p.end)
  {
    var k, off := LayerOfType(U16(p.mem, p.start + 20)), p.start + ETH_HDR;
    LlcClassified(p, k);
    hide *;
    var e, hs := Header(Ether, p.start, ETH_HDR), Parse(p.mem, k, off, p.end);
    FirstBehind(e, hs, Vlan);
    StartsVlan(p.mem, k, off, p.end);
    VlanTypeOf(U16(p.mem, p.start + 20));
    ParseVlan(p.mem, off, p.end);
    DropTwo(e, Header(Vlan, off, TAG_HDR), Parse(p.mem, LayerOfType(U16(p.mem, p.start + 16)), p.start + 18, p.end));
  }

  lemma LlcClassified(p: Packet, k: Kind)
    requires Agrees(p) && p.start + 22 <= p.end && IsLlc(p.mem, p.start) && k == LayerOfType(U16(p.mem, p.start + 20))
    ensures p.hdrs == [Header(Ether, p.start, ETH_HDR)] + Parse(p.mem, k, p.start + ETH_HDR, p.end)
  {
    hide Parse;
    ClassifyIs(p.mem, p.start, p.end, p.stray, k);
  }

  lemma VlanTypeOf(t: int)
    ensures LayerOfType(t) == Vlan <==> IsVlanType(t)
  {
  }

  /** Parsing from the octet behind the tag on does not show that the tag's type has been written two
      octets further, unless it is read as the bottom of a stack of labels. */
  lemma PoppedLayers(m: seq<byte>, n: seq<byte>, off: nat, end: nat)
    requires off + 4 <= end <= |m| == |n| && IsVlanType(U16(m, off + 2))
    requires forall i :: off <= i < end && i != off + 2 && i != off + 3 ==> n[i] == m[i]
    ensures var k := LayerOfType(U16(n, off + 2));
            Parse(n, k, off, end) == Parse(m, k, off, end)
            <==> !(k == Mpls && U16(m, off + 2) == 0x8100 && off + 4 < end)
  {
    var k := LayerOfType(U16(n, off + 2));
    VlanTypeOctet(m, off + 2);
    hide Parse, Fits, Next;
    if k == Mpls {
      PoppedMpls(m, n, off, end);
    } else if k == Vlan {
      SameFrom(m, n, off + 4, end);
      PoppedVlan(m, n, off, end);
    } else {
      PoppedOther(m, n, off, end, k);
    }
  }

  lemma PoppedVlan(m: seq<byte>, n: seq<byte>, off: nat, end: nat)
    requires off + 4 <= end <= |m| == |n| && IsVlanType(U16(m, off + 2)) && IsVlanType(U16(n, off + 2))
    requires n[off + 4..end] == m[off + 4..end]
    ensures Parse(n, Vlan, off, end) == Parse(m, Vlan, off, end)
  {
    hide Parse, LayerOfType, U16, IsVlanType;
    VlanTypeOf(U16(m, off + 2));
    VlanTypeOf(U16(n, off + 2));
    VlanHead(m, n, off, end);
    ParseDependsOnTail(n, m, Vlan, off + 4, end);
  }

  lemma SameFrom(m: seq<byte>, n: seq<byte>, from: nat, end: nat)
    requires from <= end <= |m| == |n| && forall i :: from <= i < end ==> n[i] == m[i]
    ensures n[from..end] == m[from..end]
  {
  }

  lemma PoppedMpls(m: seq<byte>, n: seq<byte>, off: nat, end: nat)
    requires off + 4 <= end <= |m| == |n| && IsMplsType(U16(n, off + 2))
    requires forall i :: off + 4 <= i < end ==> n[i] == m[i]
    ensures Parse(n, Mpls, off, end) == Parse(m, Mpls, off, end) <==> !(m[off + 2] % 2 == 1 && off + 4 < end)
  {
    hide Parse, IsMplsType, U16;
    MplsTypeOctet(n, off + 2);
    SameFrom(m, n, off + 4, end);
    MplsHead(m, n, off, end);
    BelowAlike(m, n, off + 4, end, m[off + 2] % 2 == 1);
  }

  /** The octets at two and three of a header that is no tag say nothing about what follows it. */
  lemma NextAlike(m: seq<byte>, n: seq<byte>, off: nat, k: Kind)
    requires k != Ether && !IsTag(k) && off + Size(k) <= |m| == |n|
    requires forall i :: off <= i < off + Size(k) && i != off + 2 && i != off + 3 ==> n[i] == m[i]
    ensures Next(n, k, off) == Next(m, k, off)
  {
    hide LayerOfIpv4Proto, LayerOfIpv6Next;
    if k == Ipv4 {
      assert n[off + 6] == m[off + 6] && n[off + 7] == m[off + 7] && n[off + 9] == m[off + 9];
    }
  }

  lemma FitsAlike(m: seq<byte>, n: seq<byte>, off: nat, end: nat, k: Kind)
    requires k != Ether && off <= end <= |m| == |n|
    requires forall i :: off <= i < end && i != off + 2 && i != off + 3 ==> n[i] == m[i]
    ensures Fits(n, k, off, end) == Fits(m, k, off, end)
  {
  }

  lemma PoppedOther(m: seq<byte>, n: seq<byte>, off: nat, end: nat, k: Kind)
    requires off + 4 <= end <= |m| == |n| && (k == Arp || k == Ipv4 || k == Ipv6 || k == Payload)
    requires forall i :: off <= i < end && i != off + 2 && i != off + 3 ==> n[i] == m[i]
    ensures Parse(n, k, off, end) == Parse(m, k, off, end)
  {
    hide Parse, Next, Fits;
    FitsAlike(m, n, off, end, k);
    if Fits(m, k, off, end) && k != Payload {
      NextAlike(m, n, off, k);
      assert m[off + Size(k)..end] == n[off + Size(k)..end];
      ParseAlike(m, n, off, end, k);
    } else {
      PayloadEnds(m, off, end);
      PayloadEnds(n, off, end);
      ParseStarts(m, k, off, end);
      ParseStarts(n, k, off, end);
    }
  }

  lemma PayloadEnds(m: seq<byte>, off: nat, end: nat)
    requires off <= end <= |m|
    ensures Parse(m, Payload, off, end) == if off < end then [Header(Payload, off, end - off)] else []
  {
  }

  /** One header, and then the same octets to the end. */
  lemma ParseAlike(m: seq<byte>, n: seq<byte>, off: nat, end: nat, k: Kind)
    requires k != Ether && off <= end <= |m| == |n| && Fits(m, k, off, end) && Fits(n, k, off, end)
    requires Next(n, k, off) == Next(m, k, off) && m[off + Size(k)..end] == n[off + Size(k)..end]
    ensures Parse(n, k, off, end) == Parse(m, k, off, end)
  {
    hide *;
    ParseUnfolds(m, k, off, end);
    ParseUnfolds(n, k, off, end);
    if Next(m, k, off).Some? {
      ParseDependsOnTail(n, m, Next(m, k, off).value, off + Size(k), end);
    }
  }

  /** pop_vlan of an LLC frame leaves the list a classification would give if and only if the type of the
      tag and the type the frame then reports announce the same layer, and not labels of which the first
      changes from the bottom of the stack; or they announce layers of which neither fits. */
  lemma PopVlanLlcAgreesIff(p: Packet)
    requires Agrees(p) && First(p.hdrs, Vlan).Some? && IsLlc(p.mem, p.start) && Editable(p)
    ensures First(p.hdrs, Vlan) == Some(1) && p.start + 22 <= p.end
    ensures var listed, read := LayerOfType(U16(p.mem, p.start + 16)), LayerOfType(TypeAfterPop(p));
            Agrees(PopVlan(p)) <==>
            if listed == read then !(listed == Mpls && U16(p.mem, p.start + 20) == 0x8100 && p.start + 22 < p.end)
            else !Fits(p.mem, listed, p.start + 18, p.end) && !Fits(p.mem, read, p.start + 18, p.end)
  {
    hide Parse, PopVlan, Contiguous, Fits, Classify;
    assert p.hdrs != [];
    AgreesIsTidy(p);
    PopLlcFacts(p);
    LlcTagAnnounced(p);
    var q := PopVlan(p);
    var off := p.start + 18;
    if p.start + 26 <= p.end {
      SameField(q.mem, p.mem, p.start + 24);
    }
    var listed, read := LayerOfType(U16(p.mem, p.start + 16)), LayerOfType(TypeAfterPop(p));
    assert TypeOf(q) == TypeAfterPop(p);
    ClassifyIs(q.mem, q.start, q.end, q.stray, read);
    SameTail(Header(Ether, q.start, ETH_HDR), Parse(p.mem, listed, off, p.end), Parse(q.mem, read, off, p.end));
    if listed == read {
      PoppedLayers(p.mem, q.mem, off, p.end);
    } else {
      KindsDiffer(p.mem, listed, q.mem, read, off, p.end);
      FitsAlike(p.mem, q.mem, off, p.end, read);
    }
  }
}
