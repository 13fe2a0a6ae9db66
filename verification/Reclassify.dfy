/** When the frame list edited by VLAN pushes and pops is the list a new classification of the octets
    would give, and what a pushed tag takes over from the tag below it. */
module Reclassify {
  import opened Bytes
  import opened Wrappers
  import opened Headers
  import opened Tags
  import opened TagLaws

  /** The frame list is what classify would make of the octets as they are now. */
  predicate Agrees(p: Packet) {
    p.start <= p.end <= |p.mem| && p.hdrs == Classify(p.mem, p.start, p.end, p.stray)
  }

  lemma AgreesIsTidy(p: Packet)
    requires Agrees(p) && p.hdrs != []
    ensures Tidy(p)
    ensures First(p.hdrs, Vlan) == None || First(p.hdrs, Vlan) == Some(1)
  {
    ClassifyContiguous(p.mem, p.start, p.end, p.stray);
    FirstVlanIsOutermost(p.mem, p.start, p.end, p.stray);
    ContiguousTotal(p.hdrs, p.start, p.end);
  }

  /** A VLAN tag at off and whatever its type announces behind it. */
  lemma ParseVlan(m: seq<byte>, off: nat, end: nat)
    requires off + TAG_HDR <= end <= |m|
    ensures Parse(m, Vlan, off, end)
         == [Header(Vlan, off, TAG_HDR)] + Parse(m, LayerOfType(U16(m, off + 2)), off + TAG_HDR, end)
  {
    hide Parse, LayerOfType, U16;
    ParseUnfolds(m, Vlan, off, end);
  }

  /** What a push of a VLAN tag leaves at the places a new classification reads. */
  lemma PushVlanFacts(p: Packet, ethType: int)
    requires Tidy(p) && Editable(p) && TAG_HDR <= p.start && 0 <= ethType < 0x1_0000
    ensures var q := PushVlan(p, ethType);
            && q.start == p.start - TAG_HDR && q.end == p.end && q.stray == p.stray && |q.mem| == |p.mem|
            && q.hdrs == [Header(Ether, q.start, ETH_HDR)]
                         + ([Header(Vlan, q.start + ETH_HDR, TAG_HDR)] + p.hdrs[1..])
            && U16(q.mem, q.start + 16) == U16(p.mem, TypeOff(p.mem, p.start))
            && VlanAt(q.mem, q.start + ETH_HDR) == OuterVlan(p)
            && (!IsLlc(p.mem, p.start) ==>
                U16(q.mem, q.start + 12) == ethType && q.mem[q.start + 18..p.end] == p.mem[q.start + 18..p.end])
            && (IsLlc(p.mem, p.start) ==>
                IsLlc(q.mem, q.start) && U16(q.mem, q.start + 20) == U16(p.mem, q.start + 20))
  {
    hide InsertBytes, Contiguous, SetType, InsertTag, TotalLen, VlanBytes, VlanAt, OuterVlan;
    var tag := VlanBytes(OuterVlan(p), U16(p.mem, TypeOff(p.mem, p.start)));
    PushOctets(p, ethType, Vlan, tag);
    PushedMemory(p.mem, p.start, p.end, PushVlan(p, ethType).mem, ethType, tag);
    VlanBytesRead(OuterVlan(p), U16(p.mem, TypeOff(p.mem, p.start)));
  }

  lemma VlanBytesRead(t: VlanTag, ethType: int)
    requires 0 <= t.vid < 0x1000 && 0 <= t.pcp < 8 && 0 <= ethType < 0x1_0000
    ensures VlanAt(VlanBytes(t, ethType), 0) == t && U16(VlanBytes(t, ethType), 2) == ethType
  {
    FirstOctet(t.vid / 0x100, t.pcp);
    assert SetVid(0, t.vid) == t.vid / 0x100;
  }

  lemma FirstOctet(high: int, pcp: int)
    requires 0 <= high < 16 && 0 <= pcp < 8
    ensures var x := SetPcp(high, pcp); x % 16 == high && x / 32 == pcp
  {
    assert high % 32 == high;
    Split(pcp, high);
  }

  lemma Split(q: int, r: int)
    requires 0 <= r < 16
    ensures (q * 32 + r) / 32 == q && (q * 32 + r) % 16 == r
  {
    assert q * 32 + r == (2 * q) * 16 + r;
  }

  lemma PushedMemory(m: seq<byte>, s: nat, end: nat, n: seq<byte>, ethType: int, tag: seq<byte>)
    requires TAG_HDR <= s && s + ETH_HDR <= end <= |m| == |n| && TypeOff(m, s) + 2 <= |m|
    requires 0 <= ethType < 0x1_0000 && |tag| == TAG_HDR
    requires TypeOff(m[s..], 0) + 2 <= |m[s..]|
    requires n[s - TAG_HDR..] == InsertBytes(SetType(m[s..], 0, ethType), tag)
    ensures U16(n, s + 12) == U16(tag, 2) && VlanAt(n, s + 10) == VlanAt(tag, 0)
    ensures !IsLlc(m, s) ==> U16(n, s + 8) == ethType && n[s + 14..end] == m[s + 14..end]
    ensures IsLlc(m, s) ==> U16(n, s + 8) == U16(m, s + 12) && U16(n, s + 16) == U16(m, s + 16)
  {
    var a := s - TAG_HDR;
    var c := n[a..];
    PushedBytes(m[s..], ethType, tag);
    Shifted(m, s, 12);
    Shifted(n, a, 12);
    Shifted(n, a, 16);
    assert n[a + 14] == c[14] && n[a + 15] == c[15];
    if IsLlc(m, s) {
      Shifted(m, s, 16);
      Shifted(n, a, 20);
    } else {
      assert n[a + 18..end] == c[18..][..end - a - 18] == m[s..][14..][..end - s - 14] == m[s + 14..end];
    }
  }

  lemma Shifted(m: seq<byte>, s: nat, i: nat)
    requires s + i + 2 <= |m|
    ensures U16(m[s..], i) == U16(m, s + i)
  {
  }

  lemma PushedBytes(b: seq<byte>, ethType: int, tag: seq<byte>)
    requires ETH_HDR <= |b| && TypeOff(b, 0) + 2 <= |b|
    requires 0 <= ethType < 0x1_0000 && |tag| == TAG_HDR
    ensures var c := InsertBytes(SetType(b, 0, ethType), tag);
            && c[14] == tag[0] && c[15] == tag[1] && U16(c, 16) == U16(tag, 2)
            && (!IsLlc(b, 0) ==> U16(c, 12) == ethType && c[18..] == b[14..])
            && (IsLlc(b, 0) ==> U16(c, 12) == U16(b, 12) && U16(c, 20) == U16(b, 16))
  {
    var b1 := SetType(b, 0, ethType);
    var c := InsertBytes(b1, tag);
    assert c[12] == b1[12] && c[13] == b1[13];
  }

  lemma ClassifyIs(m: seq<byte>, start: nat, end: nat, stray: int, k: Kind)
    requires start + ETH_HDR <= end <= |m|
    requires LayerOfType(EthType(m, start, end, stray)) == k
    ensures Classify(m, start, end, stray) == [Header(Ether, start, ETH_HDR)] + Parse(m, k, start + ETH_HDR, end)
  {
  }

  lemma SameTail<T>(h: T, a: seq<T>, b: seq<T>)
    ensures [h] + a == [h] + b <==> a == b
  {
    assert ([h] + a)[1..] == a && ([h] + b)[1..] == b;
  }

  /** On an Ethernet II frame the list after push_vlan with a VLAN ethertype is the classification. */
  lemma PushVlanAgrees(p: Packet, ethType: int)
    requires Agrees(p) && p.hdrs != [] && TAG_HDR <= p.start
    requires !IsLlc(p.mem, p.start) && IsVlanType(ethType)
    ensures Editable(p) && Agrees(PushVlan(p, ethType))
    ensures !IsLlc(PushVlan(p, ethType).mem, PushVlan(p, ethType).start)
  {
    hide Parse, PushVlan, Contiguous, TotalLen, VlanAt, First;
    AgreesIsTidy(p);
    var q := PushVlan(p, ethType);
    var off := p.start + ETH_HDR;
    PushVlanFacts(p, ethType);
    var k := LayerOfType(U16(p.mem, p.start + 12));
    ClassifyIs(p.mem, p.start, p.end, p.stray, k);
    assert p.hdrs[1..] == Parse(p.mem, k, off, p.end);
    ClassifyIs(q.mem, q.start, q.end, q.stray, Vlan);
    ParseVlan(q.mem, off - TAG_HDR, p.end);
    ParseDependsOnTail(q.mem, p.mem, k, off, p.end);
  }

  /** The type an 802.3 reading of the frame would find once its outer tag is gone. */
  function TypeBehindTag(p: Packet): int {
    if p.start + 26 <= p.end <= |p.mem| then U16(p.mem, p.start + 24) else p.stray
  }

  /** What the classifier finds from off on depends on the layer it is told only if something is there. */
  lemma ParseAsPayload(m: seq<byte>, k: Kind, off: nat, end: nat)
    requires k != Ether && off <= end <= |m|
    ensures Parse(m, k, off, end) == Parse(m, Payload, off, end) <==> off == end || k == Payload
  {
    if off < end {
      assert Parse(m, Payload, off, end)[0] == Header(Payload, off, end - off);
      assert Parse(m, k, off, end) == [] || Parse(m, k, off, end)[0].kind == k;
    } else {
      assert Size(k) > 0;
    }
  }

  /** A VLAN tag second in the list of a tidy packet stands behind the Ethernet header. */
  lemma TagPlaced(p: Packet)
    requires Tidy(p) && First(p.hdrs, Vlan) == Some(1)
    ensures p.start + 18 <= p.end <= |p.mem| && p.hdrs[1] == Header(Vlan, p.start + ETH_HDR, TAG_HDR)
  {
    hide TotalLen;
    TagFits(p, 1);
    assert Sound(p.hdrs[1], p.end);
    ContiguousOrder(p.hdrs, p.start, p.end, 0, 1);
  }

  /** What a pop of the outermost VLAN tag leaves at the places a new classification reads. */
  lemma PopVlanFacts(p: Packet)
    requires Tidy(p) && First(p.hdrs, Vlan) == Some(1) && !IsLlc(p.mem, p.start)
    ensures Editable(p) && p.start + 18 <= p.end && p.hdrs[1] == Header(Vlan, p.start + ETH_HDR, TAG_HDR)
    ensures var q := PopVlan(p);
            var off := p.start + 18;
            && q.start == p.start + TAG_HDR && q.end == p.end && q.stray == p.stray && |q.mem| == |p.mem|
            && q.hdrs == [Header(Ether, q.start, ETH_HDR)] + p.hdrs[2..]
            && U16(q.mem, q.start + 12) == U16(p.mem, p.start + 16)
            && q.mem[off..] == p.mem[off..]
  {
    hide Contiguous, TotalLen, RemoveTag, Sound;
    TagPlaced(p);
    var t := U16(p.mem, p.start + 16);
    var off := p.start + 18;
    var q := PopVlan(p);
    var m := SetType(p.mem, p.start, t);
    RemoveTagSuffix(m, p.start);
    PopKeepsTidy(p, t);
    assert q.hdrs == [q.hdrs[0]] + q.hdrs[1..];
    assert m[off..] == p.mem[off..];
    Shifted(m, p.start, 12);
    Shifted(q.mem, q.start, 12);
    RemovedBytes(m[p.start..]);
  }

  lemma RemovedBytes(b: seq<byte>)
    requires ETH_HDR + TAG_HDR <= |b|
    ensures U16(RemoveBytes(b), 12) == U16(b, 12)
  {
    assert RemoveBytes(b)[12] == b[12] && RemoveBytes(b)[13] == b[13];
  }

  lemma VlanTagAnnounced(p: Packet)
    requires Agrees(p) && First(p.hdrs, Vlan) == Some(1) && p.start + 18 <= p.end && !IsLlc(p.mem, p.start)
    ensures p.hdrs == [Header(Ether, p.start, ETH_HDR), Header(Vlan, p.start + ETH_HDR, TAG_HDR)] + p.hdrs[2..]
    ensures p.hdrs[2..] == Parse(p.mem, LayerOfType(U16(p.mem, p.start + 16)), p.start + 18, p.end)
  {
    var k, off := LayerOfType(U16(p.mem, p.start + 12)), p.start + ETH_HDR;
    EtherClassified(p, k);
    hide *;
    var e, hs := Header(Ether, p.start, ETH_HDR), Parse(p.mem, k, off, p.end);
    FirstBehind(e, hs, Vlan);
    StartsVlan(p.mem, k, off, p.end);
    ParseVlan(p.mem, off, p.end);
    DropTwo(e, Header(Vlan, off, TAG_HDR), Parse(p.mem, LayerOfType(U16(p.mem, p.start + 16)), p.start + 18, p.end));
  }

  lemma EtherClassified(p: Packet, k: Kind)
    requires Agrees(p) && p.start + 14 <= p.end && !IsLlc(p.mem, p.start) && k == LayerOfType(U16(p.mem, p.start + 12))
    ensures p.end <= |p.mem| && p.hdrs == [Header(Ether, p.start, ETH_HDR)] + Parse(p.mem, k, p.start + ETH_HDR, p.end)
  {
    hide Parse;
    ClassifyIs(p.mem, p.start, p.end, p.stray, k);
  }

  lemma DropTwo<T>(a: T, b: T, rest: seq<T>)
    ensures ([a] + ([b] + rest))[2..] == rest
    ensures [a] + ([b] + rest) == [a, b] + rest
  {
  }

  lemma StartsVlan(m: seq<byte>, k: Kind, off: nat, end: nat)
    requires k != Ether && off <= end <= |m|
    ensures First(Parse(m, k, off, end), Vlan) == Some(0) ==> k == Vlan
  {
    if k != Vlan {
      VlanOnlyFirst(m, k, off, end);
    }
  }

  /** pop_vlan of an Ethernet II packet leaves the list a classification would give exactly when the
      tag's type is an ethertype, or nothing follows the tag, or what would now be read as the type
      of an 802.3 frame announces no known protocol. */
  lemma PopVlanAgreesIff(p: Packet)
    requires Agrees(p) && First(p.hdrs, Vlan).Some? && !IsLlc(p.mem, p.start)
    ensures Editable(p) && First(p.hdrs, Vlan) == Some(1) && p.start + 18 <= p.end
    ensures Agrees(PopVlan(p)) <==>
              || U16(p.mem, p.start + 16) >= MIN_ETHERTYPE
              || p.start + 18 == p.end
              || LayerOfType(TypeBehindTag(p)) == Payload
    ensures U16(p.mem, p.start + 16) >= MIN_ETHERTYPE ==> !IsLlc(PopVlan(p).mem, PopVlan(p).start)
    ensures PopVlan(p).hdrs != []
  {
    AgreesIsTidy(p);
    PopVlanFacts(p);
    VlanTagAnnounced(p);
    var q := PopVlan(p);
    assert q.mem[p.start + 18..p.end] == q.mem[p.start + 18..][..p.end - p.start - 18] == p.mem[p.start + 18..p.end];
    if U16(p.mem, p.start + 16) < MIN_ETHERTYPE && p.start + 26 <= p.end {
      Shifted(q.mem, p.start + 18, 6);
      Shifted(p.mem, p.start + 18, 6);
    }
    var t := U16(p.mem, p.start + 16);
    ClassifiedAlike(q, p.mem, t, if t < MIN_ETHERTYPE then TypeBehindTag(p) else t);
  }

  /** A list that says what type t announces is the classification exactly if the type read does so too. */
  lemma ClassifiedAlike(q: Packet, m: seq<byte>, t: int, read: int)
    requires q.start + ETH_HDR <= q.end <= |q.mem| == |m|
    requires q.mem[q.start + ETH_HDR..q.end] == m[q.start + ETH_HDR..q.end]
    requires q.hdrs == [Header(Ether, q.start, ETH_HDR)] + Parse(m, LayerOfType(t), q.start + ETH_HDR, q.end)
    requires TypeOf(q) == read && (t >= MIN_ETHERTYPE ==> read == t)
    ensures Agrees(q) <==> t >= MIN_ETHERTYPE || q.start + ETH_HDR == q.end || LayerOfType(read) == Payload
  {
    ListedAlike(q, m, LayerOfType(t), LayerOfType(read));
  }

  lemma ListedAlike(q: Packet, m: seq<byte>, listed: Kind, read: Kind)
    requires q.start + ETH_HDR <= q.end <= |q.mem| == |m|
    requires q.mem[q.start + ETH_HDR..q.end] == m[q.start + ETH_HDR..q.end]
    requires listed != Ether && read != Ether && (listed == Payload || listed == read) && LayerOfType(TypeOf(q)) == read
    requires q.hdrs == [Header(Ether, q.start, ETH_HDR)] + Parse(m, listed, q.start + ETH_HDR, q.end)
    ensures Agrees(q) <==> listed == read || q.start + ETH_HDR == q.end
  {
    hide Parse, Classify, LayerOfType, EthType;
    var off := q.start + ETH_HDR;
    ClassifyIs(q.mem, q.start, q.end, q.stray, read);
    ParseDependsOnTail(q.mem, m, read, off, q.end);
    SameTail(Header(Ether, q.start, ETH_HDR), Parse(m, listed, off, q.end), Parse(m, read, off, q.end));
    ParseAsPayload(m, read, off, q.end);
  }

  lemma NoVlanFirst(q: Packet, hs: seq<Header>)
    requires q.start + ETH_HDR <= q.end <= |q.mem|
    requires q.hdrs == [Header(Ether, q.start, ETH_HDR)] + ([Header(Vlan, q.start + ETH_HDR, TAG_HDR)] + hs)
    requires !IsVlanType(TypeOf(q))
    ensures !Agrees(q)
  {
    hide Parse, Classify;
    var k := LayerOfType(TypeOf(q));
    ClassifyIs(q.mem, q.start, q.end, q.stray, k);
    var c := Parse(q.mem, k, q.start + ETH_HDR, q.end);
    VlanOnlyFirst(q.mem, k, q.start + ETH_HDR, q.end);
    SameTail(Header(Ether, q.start, ETH_HDR), [Header(Vlan, q.start + ETH_HDR, TAG_HDR)] + hs, c);
    assert First([Header(Vlan, q.start + ETH_HDR, TAG_HDR)] + hs, Vlan) == Some(0);
  }

  // ---- runs of VLAN pushes and pops --------------------------------------------------------

  /** Pushes use VLAN ethertypes and find headroom; pops take off tags over a real ethertype. */
  predicate VlanRun(p: Packet, ops: seq<Op>)
    decreases |ops|
  {
    ops == [] ||
    (&& (match ops[0]
         case OpPushVlan(e) => IsVlanType(e) && TAG_HDR <= p.start
         case OpPopVlan =>
           First(p.hdrs, Vlan).Some? ==> p.start + 18 <= |p.mem| && U16(p.mem, p.start + 16) >= MIN_ETHERTYPE
         case _ => false)
     && VlanRun(Apply(p, ops[0]), ops[1..]))
  }

  /** Over every run of VLAN pushes and pops on a classified Ethernet II packet the frame list has
      the kinds, offsets and lengths that classifying the resulting octets gives. */
  lemma {:induction false} VlanRunAgrees(p: Packet, ops: seq<Op>)
    requires Agrees(p) && p.hdrs != [] && !IsLlc(p.mem, p.start)
    requires VlanRun(p, ops)
    ensures Agrees(Exec(p, ops))
    decreases |ops|
  {
    if ops != [] {
      AgreesIsTidy(p);
      match ops[0] {
        case OpPushVlan(e) => PushVlanAgrees(p, e);
        case OpPopVlan =>
          if First(p.hdrs, Vlan).Some? {
            PopVlanAgreesIff(p);
          }
      }
      VlanRunAgrees(Apply(p, ops[0]), ops[1..]);
    }
  }

  // ---- what a pushed tag holds --------------------------------------------------------------

  /** Header k is the first of its kind in the list. */
  predicate Outermost(hs: seq<Header>, k: nat, kind: Kind) {
    k < |hs| && hs[k].kind == kind && forall j :: 0 <= j < k ==> hs[j].kind != kind
  }

  predicate Lacks(hs: seq<Header>, kind: Kind) {
    forall j :: 0 <= j < |hs| ==> hs[j].kind != kind
  }

  lemma OuterVlanIs(p: Packet)
    requires WellFormed(p)
    ensures forall k: nat :: Outermost(p.hdrs, k, Vlan) ==>
              p.hdrs[k].off + TAG_HDR <= |p.mem| && OuterVlan(p) == VlanAt(p.mem, p.hdrs[k].off)
    ensures Lacks(p.hdrs, Vlan) ==> OuterVlan(p) == VlanTag(0, 0)
  {
    hide VlanAt, TotalLen;
    forall k: nat | Outermost(p.hdrs, k, Vlan)
      ensures p.hdrs[k].off + TAG_HDR <= |p.mem| && OuterVlan(p) == VlanAt(p.mem, p.hdrs[k].off)
    {
      FirstIsOutermost(p.hdrs, k, Vlan);
      assert Sound(p.hdrs[k], p.end);
    }
  }

  lemma FirstIsOutermost(hs: seq<Header>, k: nat, kind: Kind)
    requires Outermost(hs, k, kind)
    ensures First(hs, kind) == Some(k)
  {
  }

  /** The second header of q is a tag of this kind, inside the memory, behind the Ethernet header. */
  predicate TagSecond(q: Packet, kind: Kind) {
    |q.hdrs| > 1 && q.hdrs[1] == Header(kind, q.start + ETH_HDR, TAG_HDR) && q.start + ETH_HDR + TAG_HDR <= |q.mem|
  }

  /** The new tag of q holds, and the match says, what the outermost VLAN tag of p holds, or 0 and 0. */
  ghost predicate InheritsVlan(p: Packet, q: Packet) {
    && TagSecond(q, Vlan)
    && (forall k: nat :: Outermost(p.hdrs, k, Vlan) ==>
          && p.hdrs[k].off + TAG_HDR <= |p.mem|
          && VlanAt(q.mem, q.start + ETH_HDR) == VlanAt(p.mem, p.hdrs[k].off)
          && q.match_.vlan == Some(VlanAt(p.mem, p.hdrs[k].off)))
    && (Lacks(p.hdrs, Vlan) ==>
          VlanAt(q.mem, q.start + ETH_HDR) == VlanTag(0, 0) && q.match_.vlan == Some(VlanTag(0, 0)))
  }

  /** A pushed VLAN tag carries the id and priority of the former outermost tag (0 and 0 without
      one), announces the former ethertype, and the match says the same. */
  lemma PushedVlanInherits(p: Packet, ethType: int)
    requires Tidy(p) && Editable(p) && TAG_HDR <= p.start && 0 <= ethType < 0x1_0000
    ensures InheritsVlan(p, PushVlan(p, ethType))
    ensures U16(PushVlan(p, ethType).mem, p.start + 12) == U16(p.mem, TypeOff(p.mem, p.start))
  {
    hide VlanAt, Contiguous, TotalLen, Outermost, Lacks, OuterVlan, VlanBytes;
    OuterVlanIs(p);
    PushVlanFacts(p, ethType);
  }

  lemma OuterMplsIs(p: Packet)
    requires WellFormed(p)
    ensures forall k: nat :: Outermost(p.hdrs, k, Mpls) ==>
              && p.hdrs[k].off + TAG_HDR <= |p.mem|
              && OuterMpls(p) == (MplsAt(p.mem, p.hdrs[k].off), p.mem[p.hdrs[k].off + 3], false)
    ensures Lacks(p.hdrs, Mpls) ==> OuterMpls(p) == (MplsTag(0, 0), 0, true)
  {
    hide MplsAt, TotalLen;
    forall k: nat | Outermost(p.hdrs, k, Mpls)
      ensures p.hdrs[k].off + TAG_HDR <= |p.mem|
              && OuterMpls(p) == (MplsAt(p.mem, p.hdrs[k].off), p.mem[p.hdrs[k].off + 3], false)
    {
      FirstIsOutermost(p.hdrs, k, Mpls);
      assert Sound(p.hdrs[k], p.end);
    }
  }

  /** The new tag of q is meant to hold, and the match says, what the outermost MPLS tag of p holds. The octets
      hold it exactly when the label is a multiple of 16 and the traffic class 0; the time to live they hold.
      Without a label in p it is label, traffic class and time to live 0 at the bottom of the stack. */
  ghost predicate InheritsMpls(p: Packet, q: Packet) {
    && TagSecond(q, Mpls)
    && (forall k: nat :: Outermost(p.hdrs, k, Mpls) ==>
          && p.hdrs[k].off + TAG_HDR <= |p.mem|
          && var t := MplsAt(p.mem, p.hdrs[k].off);
          && q.match_.mpls == Some(t)
          && (MplsAt(q.mem, q.start + ETH_HDR) == t <==> t.id % 16 == 0 && t.tc == 0)
          && q.mem[q.start + ETH_HDR + 3] == p.mem[p.hdrs[k].off + 3]
          && !BottomOfStack(q.mem, q.start + ETH_HDR))
    && (Lacks(p.hdrs, Mpls) ==>
          && q.match_.mpls == Some(MplsTag(0, 0)) && MplsAt(q.mem, q.start + ETH_HDR) == MplsTag(0, 0)
          && q.mem[q.start + ETH_HDR + 3] == 0 && BottomOfStack(q.mem, q.start + ETH_HDR))
  }

  /** A pushed MPLS tag is meant to inherit label and traffic class of the former outermost label, and the
      match claims it does. The octets hold them exactly when the label is a multiple of 16 and the traffic
      class 0: clearing the bottom-of-stack bit clears the rest of its octet. */
  lemma PushedMplsInheritsIff(p: Packet, ethType: int)
    requires Tidy(p) && Editable(p) && TAG_HDR <= p.start && 0 <= ethType < 0x1_0000
    ensures InheritsMpls(p, PushMpls(p, ethType)) && PushMpls(p, ethType).match_.ethType == Some(ethType)
  {
    hide MplsAt, Contiguous, TotalLen, Outermost, Lacks, OuterMpls, MplsBytes, InsertTag, SetType, BottomOfStack;
    OuterMplsIs(p);
    var (t, ttl, bos) := OuterMpls(p);
    var tag := MplsBytes(t, ttl, bos);
    PushOctets(p, ethType, Mpls, tag);
    PushedFirst(p, ethType, Mpls, tag);
    var q := PushMpls(p, ethType);
    SameOctets(q.mem, q.start + ETH_HDR, tag);
    MplsBytesRead(t, ttl, bos);
  }

  /** The fields of a tag in its octets: 3 bits of priority, 1 bit, 12 bits of id (IEEE 802.1Q); 20 bits of
      label, 3 bits of traffic class, 1 bit for the bottom of the stack, 8 bits of time to live (RFC 3032). */
  lemma TagFields(m: seq<byte>, off: nat)
    requires off + 4 <= |m|
    ensures VlanAt(m, off).pcp == U16(m, off) / 0x2000 && VlanAt(m, off).vid == U16(m, off) % 0x1000
    ensures MplsAt(m, off).id == U32(m, off) / 0x1000 && MplsAt(m, off).tc == U32(m, off) / 0x200 % 8
    ensures BottomOfStack(m, off) <==> U32(m, off) / 0x100 % 2 == 1
  {
    VlanFields(m[off], m[off + 1]);
    MplsFields(m[off], m[off + 1], m[off + 2], m[off + 3]);
  }

  lemma VlanFields(a: byte, b: byte)
    ensures (a * 0x100 + b) / 0x2000 == a / 32
    ensures (a * 0x100 + b) % 0x1000 == a % 16 * 0x100 + b
  {
  }

  lemma MplsFields(a: byte, b: byte, c: byte, d: byte)
    ensures var v := (a * 0x100 + b) * 0x1_0000 + (c * 0x100 + d);
            && v / 0x1000 == a * 0x1000 + b * 16 + c / 16
            && v / 0x200 % 8 == c % 16 / 2 && v / 0x100 % 2 == c % 2
  {
    var u := a * 0x1_0000 + b * 0x100 + c;
    var v := (a * 0x100 + b) * 0x1_0000 + (c * 0x100 + d);
    assert v == u * 0x100 + d;
    UpperOctets(u, d);
    LabelOf(a * 0x100 + b, c);
  }

  lemma UpperOctets(u: nat, d: byte)
    ensures var v := u * 0x100 + d; v / 0x100 == u && v / 0x200 == u / 2 && v / 0x1000 == u / 16
  {
  }

  lemma LabelOf(h: nat, c: byte)
    ensures var u := h * 0x100 + c; u / 16 == h * 16 + c / 16 && u / 2 % 8 == c % 16 / 2 && u % 2 == c % 2
  {
    LowBits(h * 16 + c / 16, c % 16);
    LowBits(c / 16, c % 16);
  }

  lemma LowBits(q: nat, r: nat)
    requires r < 16
    ensures var u := q * 16 + r; u / 16 == q && u / 2 % 8 == r / 2 && u % 2 == r % 2
  {
    var u := q * 16 + r;
    assert u / 2 == q * 8 + r / 2;
  }

  lemma SameOctets(m: seq<byte>, o: nat, tag: seq<byte>)
    requires |tag| == TAG_HDR && o + TAG_HDR <= |m|
    requires forall i :: 0 <= i < TAG_HDR ==> m[o + i] == tag[i]
    ensures MplsAt(m, o) == MplsAt(tag, 0) && BottomOfStack(m, o) == BottomOfStack(tag, 0) && m[o + 3] == tag[3]
  {
    assert m[o + 0] == tag[0] && m[o + 1] == tag[1] && m[o + 2] == tag[2] && m[o + 3] == tag[3];
  }

  lemma MplsBytesRead(t: MplsTag, ttl: byte, bos: bool)
    requires 0 <= t.id < 0x10_0000 && 0 <= t.tc < 8
    ensures var r := MplsAt(MplsBytes(t, ttl, bos), 0);
            if bos then r == t else r == MplsTag(t.id - t.id % 16, 0)
    ensures BottomOfStack(MplsBytes(t, ttl, bos), 0) == bos && MplsBytes(t, ttl, bos)[3] == ttl
  {
    SplitLabel(t.id);
    ThirdOctet(t.id % 16, t.tc);
  }

  lemma SplitLabel(id: int)
    requires 0 <= id < 0x10_0000
    ensures id / 0x1000 * 0x1000 + id / 16 % 0x100 * 16 == id - id % 16
  {
    assert id / 0x1000 == id / 16 / 0x100;
  }

  lemma ThirdOctet(low: int, tc: int)
    requires 0 <= low < 16 && 0 <= tc < 8
    ensures var x := SetTc(low * 16, tc);
            && x == low * 16 + tc * 2
            && x % 2 == 0 && x % 2 / 16 == 0 && x % 2 % 16 / 2 == 0
            && (x / 2 * 2 + 1) / 16 == low && (x / 2 * 2 + 1) % 16 / 2 == tc && (x / 2 * 2 + 1) % 2 == 1
  {
  }

  /** A push refused for want of headroom has already written the type field, so it leaves the
      packet as it was only when that field held the pushed type already. */
  lemma RefusedPushIff(p: Packet, ethType: int)
    requires Editable(p) && p.hdrs != [] && 0 <= ethType < 0x1_0000
    requires PushStatus(p) == OutOfRange
    ensures PushVlan(p, ethType) == p <==> U16(p.mem, TypeOff(p.mem, p.start)) == ethType
    ensures PushMpls(p, ethType) == p <==> U16(p.mem, TypeOff(p.mem, p.start)) == ethType
  {
    var i := TypeOff(p.mem, p.start);
    var m := PutU16(p.mem, i, ethType);
    if U16(p.mem, i) == ethType {
      U16Injective(m, p.mem, i, i);
      assert m == p.mem;
    }
  }
}
