/** What the packet classifier computes: the header list and the match of a raw Ethernet frame.
    Offsets are absolute positions in the packet's memory area, as the data pointers of the
    frames are, so that moving the start of the packet leaves them alone. */
module Headers {
  import opened Bytes
  import opened Wrappers

  datatype Kind = Ether | Vlan | Mpls | Arp | Ipv4 | Icmpv4 | Ipv6 | Icmpv6 | Udp | Tcp | Sctp | Payload

  /** One element of the frame list: a protocol, the position of its first octet, its length. */
  datatype Header = Header(kind: Kind, off: nat, len: nat) {
    function End(): nat { off + len }
  }

  predicate IsTag(k: Kind) { k == Vlan || k == Mpls }

  const ETH_HDR: nat := 14
  const TAG_HDR: nat := 4

  function Size(k: Kind): (n: nat)
    ensures n > 0 && (IsTag(k) ==> n == TAG_HDR)
  {
    match k
    case Ether => ETH_HDR
    case Vlan => TAG_HDR
    case Mpls => TAG_HDR
    case Arp => 28
    case Ipv4 => 20
    case Icmpv4 => 4
    case Ipv6 => 40
    case Icmpv6 => 4
    case Udp => 8
    case Tcp => 20
    case Sctp => 12
    case Payload => 1
  }

  predicate IsVlanType(t: int) { t == 0x8100 || t == 0x88a8 || t == 0x88e7 }

  predicate IsMplsType(t: int) { t == 0x8847 || t == 0x8848 }

  /** Values of the type field below this one are IEEE 802.3 lengths. */
  const MIN_ETHERTYPE := 0x600

  /** The protocol an ethertype announces; Payload stands for every type without a parser. */
  function LayerOfType(t: int): (k: Kind)
    ensures k != Ether
  {
    if IsVlanType(t) then Vlan
    else if IsMplsType(t) then Mpls
    else if t == 0x0806 then Arp
    else if t == 0x0800 then Ipv4
    else if t == 0x86dd then Ipv6
    else Payload
  }

  function LayerOfTransport(p: int): Kind {
    if p == 17 then Udp else if p == 6 then Tcp else if p == 132 then Sctp else Payload
  }

  function LayerOfIpv4Proto(p: int): (k: Kind)
    ensures k != Ether && k != Vlan
  {
    if p == 4 then Ipv4 else if p == 1 then Icmpv4 else if p == 41 then Ipv6 else LayerOfTransport(p)
  }

  function LayerOfIpv6Next(p: int): (k: Kind)
    ensures k != Ether && k != Vlan
  {
    if p == 4 then Ipv4 else if p == 41 then Ipv6 else if p == 58 then Icmpv6 else LayerOfTransport(p)
  }

  predicate IsIpv6Extension(p: int) { p == 0 || p == 43 || p == 44 || p == 60 || p == 135 }

  /** The IPv6 frame is built over the 40 octets of the base header only, so its extension parser
      finds no room for any extension header, raises an error, and ends the classification. */
  predicate Ipv6Refused(m: seq<byte>, off: nat)
    requires off + Size(Ipv6) <= |m|
  {
    m[off] / 16 == 6 && IsIpv6Extension(m[off + 6])
  }

  /** The bit the classifier takes for "more fragments": the top bit of the flags field. */
  predicate FragmentBit(m: seq<byte>, off: nat)
    requires off + Size(Ipv4) <= |m|
  {
    U16(m, off + 6) / 0x8000 == 1
  }

  predicate BottomOfStack(m: seq<byte>, off: nat)
    requires off + TAG_HDR <= |m|
  {
    m[off + 2] % 2 == 1
  }

  /** The protocol that follows the header of kind k at off, or None where the classifier stops. */
  function Next(m: seq<byte>, k: Kind, off: nat): (r: Option<Kind>)
    requires k != Ether
    requires off + Size(k) <= |m|
    ensures r.Some? ==> r.value != Ether && k != Icmpv4 && k != Payload && (k != Vlan ==> r.value != Vlan)
  {
    match k
    case Vlan => Some(LayerOfType(U16(m, off + 2)))
    case Mpls => Some(if BottomOfStack(m, off) then Payload else Mpls)
    case Ipv4 => if FragmentBit(m, off) then None else Some(LayerOfIpv4Proto(m[off + 9]))
    case Ipv6 => Some(LayerOfIpv6Next(m[off + 6]))
    case Icmpv4 => None
    case Payload => None
    case _ => Some(Payload)
  }

  /** ICMPv4 and payload frames take everything that is left. */
  function Extent(k: Kind, off: nat, end: nat): (n: nat)
    requires off + Size(k) <= end
    ensures Size(k) <= n <= end - off
    ensures k != Icmpv4 && k != Payload ==> n == Size(k)
  {
    if k == Icmpv4 || k == Payload then end - off else Size(k)
  }

  /** The headers found in m[off..end] when the protocol at off is k. */
  function Parse(m: seq<byte>, k: Kind, off: nat, end: nat): seq<Header>
    requires k != Ether
    requires off <= end <= |m|
    decreases end - off
  {
    if !Fits(m, k, off, end) then []
    else
      [Header(k, off, Extent(k, off, end))]
      + match Next(m, k, off)
        case None => []
        case Some(k') => Parse(m, k', off + Size(k), end)
  }

  predicate Fits(m: seq<byte>, k: Kind, off: nat, end: nat): (b: bool)
    requires off <= end <= |m|
    ensures b ==> off + Size(k) <= end
  {
    Size(k) <= end - off && !(k == Ipv6 && Ipv6Refused(m, off))
  }

  predicate IsLlc(m: seq<byte>, start: nat)
    requires start + ETH_HDR <= |m|
  {
    U16(m, start + 12) < MIN_ETHERTYPE
  }

  /** Where the Ethernet frame keeps its type: behind the LLC/SNAP header of an 802.3 frame. */
  function TypeOff(m: seq<byte>, start: nat): (i: nat)
    requires start + ETH_HDR <= |m|
  {
    if IsLlc(m, start) then start + 20 else start + 12
  }

  /** The ethertype the Ethernet frame at start reports. An 802.3 frame shorter than 22 octets has
      its type read behind the packet; stray is what the memory holds there. */
  function EthType(m: seq<byte>, start: nat, end: nat, stray: int): int
    requires start + ETH_HDR <= end <= |m|
  {
    if TypeOff(m, start) + 2 <= end then U16(m, TypeOff(m, start)) else stray
  }

  /** The whole frame list for the packet m[start..end]. */
  function Classify(m: seq<byte>, start: nat, end: nat, stray: int): seq<Header>
    requires start <= end <= |m|
  {
    if end - start < ETH_HDR then []
    else [Header(Ether, start, ETH_HDR)] + Parse(m, LayerOfType(EthType(m, start, end, stray)), start + ETH_HDR, end)
  }

  // ---- tag fields -------------------------------------------------------------------------

  datatype VlanTag = VlanTag(vid: int, pcp: int)
  datatype MplsTag = MplsTag(id: int, tc: int)

  function VlanAt(m: seq<byte>, off: nat): (t: VlanTag)
    requires off + TAG_HDR <= |m|
    ensures 0 <= t.vid < 0x1000 && 0 <= t.pcp < 8
  {
    VlanTag(m[off] as int % 16 * 0x100 + m[off + 1], m[off] / 32)
  }

  function MplsAt(m: seq<byte>, off: nat): (t: MplsTag)
    requires off + TAG_HDR <= |m|
    ensures 0 <= t.id < 0x10_0000 && 0 <= t.tc < 8
  {
    MplsTag(m[off] as int * 0x1000 + m[off + 1] as int * 16 + m[off + 2] / 16, m[off + 2] % 16 / 2)
  }

  /** The first header of kind k in the list. */
  function First(hs: seq<Header>, k: Kind): (r: Option<nat>)
    ensures r.Some? ==> r.value < |hs| && hs[r.value].kind == k && forall i :: 0 <= i < r.value ==> hs[i].kind != k
    ensures r.None? ==> forall i :: 0 <= i < |hs| ==> hs[i].kind != k
  {
    if hs == [] then None
    else if hs[0].kind == k then Some(0)
    else match First(hs[1..], k) case None => None case Some(i) => Some(i + 1)
  }

  // ---- the match --------------------------------------------------------------------------

  /** The match fields the tag operations touch, with the two "already seen" flags. */
  datatype Match = Match(ethType: Option<int>, vlan: Option<VlanTag>, mpls: Option<MplsTag>,
                         vlanPresent: bool, mplsPresent: bool)

  const EMPTY_MATCH := Match(None, None, None, false, false)

  /** What a parser writes into the match on finding the header h. */
  function Note(m: seq<byte>, f: Match, h: Header): Match
    requires IsTag(h.kind) ==> h.off + TAG_HDR <= |m|
  {
    match h.kind
    case Vlan =>
      f.(ethType := Some(U16(m, h.off + 2)),
         vlan := if f.vlanPresent then f.vlan else Some(VlanAt(m, h.off)),
         vlanPresent := true)
    case Mpls =>
      f.(mpls := if f.mplsPresent then f.mpls else Some(MplsAt(m, h.off)), mplsPresent := true)
    case _ => f
  }

  predicate TagsInside(m: seq<byte>, hs: seq<Header>) {
    forall i :: 0 <= i < |hs| && IsTag(hs[i].kind) ==> hs[i].off + TAG_HDR <= |m|
  }

  function NoteAll(m: seq<byte>, f: Match, hs: seq<Header>): Match
    requires TagsInside(m, hs)
    decreases |hs|
  {
    if hs == [] then f else NoteAll(m, Note(m, f, hs[0]), hs[1..])
  }

  // ---- properties of the classification ---------------------------------------------------

  /** Headers lie end to end from off, inside the region that ends at end. */
  predicate Contiguous(hs: seq<Header>, off: nat, end: nat) {
    if hs == [] then off <= end
    else hs[0].off == off && hs[0].len > 0 && Contiguous(hs[1..], hs[0].End(), end)
  }

  /** A header behind the Ethernet header: inside the packet, tags four octets long. */
  predicate Sound(h: Header, end: nat) {
    h.kind != Ether && h.End() <= end && (IsTag(h.kind) ==> h.len == TAG_HDR)
  }

  predicate AllSound(hs: seq<Header>, end: nat) {
    forall i :: 0 <= i < |hs| ==> Sound(hs[i], end)
  }

  lemma {:induction false} ParseContiguous(m: seq<byte>, k: Kind, off: nat, end: nat)
    requires k != Ether
    requires off <= end <= |m|
    ensures Contiguous(Parse(m, k, off, end), off, end)
    ensures AllSound(Parse(m, k, off, end), end)
    decreases end - off
  {
    hide Next, Size, Extent, Fits, Contiguous, AllSound;
    if Fits(m, k, off, end) {
      var h := Header(k, off, Extent(k, off, end));
      var next := Next(m, k, off);
      var rest := if next.None? then [] else Parse(m, next.value, off + Size(k), end);
      if next.Some? {
        ParseContiguous(m, next.value, off + Size(k), end);
      } else {
        ContiguousNil(h.End(), end);
      }
      assert Parse(m, k, off, end) == [h] + rest;
      ContiguousCons(h, rest, off, end);
    } else {
      ContiguousNil(off, end);
    }
  }

  lemma ContiguousNil(off: nat, end: nat)
    requires off <= end
    ensures Contiguous([], off, end) && AllSound([], end)
  {
  }

  lemma ContiguousCons(h: Header, rest: seq<Header>, off: nat, end: nat)
    requires h.off == off && h.len > 0 && Sound(h, end)
    requires Contiguous(rest, h.End(), end) && AllSound(rest, end)
    ensures Contiguous([h] + rest, off, end) && AllSound([h] + rest, end)
  {
    assert ([h] + rest)[1..] == rest;
  }

  lemma {:induction false} ContiguousOrder(hs: seq<Header>, off: nat, end: nat, i: nat, j: nat)
    requires Contiguous(hs, off, end)
    requires i < j < |hs|
    ensures off <= hs[i].off && hs[i].End() <= hs[j].off
    ensures hs[j].End() <= end
    ensures j == i + 1 ==> hs[i].End() == hs[j].off
    decreases j
  {
    ContiguousEnd(hs, off, end, j);
    if i > 0 {
      ContiguousOrder(hs[1..], hs[0].End(), end, i - 1, j - 1);
    } else if j > 1 {
      ContiguousOrder(hs[1..], hs[0].End(), end, 0, j - 1);
    }
  }

  lemma {:induction false} ContiguousEnd(hs: seq<Header>, off: nat, end: nat, i: nat)
    requires Contiguous(hs, off, end)
    requires i < |hs|
    ensures off <= hs[i].off && hs[i].End() <= end
    ensures hs[i].len > 0
    decreases i
  {
    if i > 0 {
      ContiguousEnd(hs[1..], hs[0].End(), end, i - 1);
    } else {
      ContiguousStart(hs[1..], hs[0].End(), end);
    }
  }

  lemma {:induction false} ContiguousStart(hs: seq<Header>, off: nat, end: nat)
    requires Contiguous(hs, off, end)
    ensures off <= end
    decreases |hs|
  {
    if hs != [] {
      ContiguousStart(hs[1..], hs[0].End(), end);
    }
  }

  /** For every packet: the frames are disjoint, in order, leave no gap, start at the start of the
      packet, stay inside it, and only the first is an Ethernet header. */
  lemma ClassifyTiles(m: seq<byte>, start: nat, end: nat, stray: int)
    requires start <= end <= |m|
    ensures var hs := Classify(m, start, end, stray);
            && (hs == [] <==> end - start < ETH_HDR)
            && (hs != [] ==> hs[0] == Header(Ether, start, ETH_HDR))
            && (forall i :: 0 < i < |hs| ==> hs[i].off == hs[i - 1].End())
            && (forall i :: 0 <= i < |hs| ==> start <= hs[i].off && hs[i].End() <= end && hs[i].len > 0)
            && (forall i :: 0 < i < |hs| ==> hs[i].kind != Ether)
  {
    var hs := Classify(m, start, end, stray);
    ClassifyContiguous(m, start, end, stray);
    forall i | 0 < i < |hs|
      ensures hs[i].off == hs[i - 1].End()
    {
      ContiguousOrder(hs, start, end, i - 1, i);
    }
    forall i | 0 <= i < |hs|
      ensures start <= hs[i].off && hs[i].End() <= end && hs[i].len > 0
    {
      ContiguousEnd(hs, start, end, i);
    }
  }

  lemma ClassifyContiguous(m: seq<byte>, start: nat, end: nat, stray: int)
    requires start <= end <= |m|
    ensures var hs := Classify(m, start, end, stray);
            && Contiguous(hs, start, end)
            && (forall i :: 0 < i < |hs| ==> Sound(hs[i], end))
  {
    var hs := Classify(m, start, end, stray);
    if hs != [] {
      var k := LayerOfType(EthType(m, start, end, stray));
      ParseContiguous(m, k, start + ETH_HDR, end);
      var rest := Parse(m, k, start + ETH_HDR, end);
      assert hs[1..] == rest;
      forall i | 0 < i < |hs|
        ensures Sound(hs[i], end)
      {
        assert hs[i] == rest[i - 1];
      }
    }
  }

  /** A VLAN header can only follow the Ethernet header or another VLAN header; nothing but MPLS or
      payload follows MPLS. So tags of one kind form one block. */
  lemma {:induction false} VlanOnlyFirst(m: seq<byte>, k: Kind, off: nat, end: nat)
    requires k != Ether && k != Vlan
    requires off <= end <= |m|
    ensures First(Parse(m, k, off, end), Vlan) == None
    decreases end - off
  {
    hide Next, Fits, Size, Extent, First;
    if Fits(m, k, off, end) {
      var h := Header(k, off, Extent(k, off, end));
      var next := Next(m, k, off);
      var rest := if next.None? then [] else Parse(m, next.value, off + Size(k), end);
      if next.Some? {
        VlanOnlyFirst(m, next.value, off + Size(k), end);
      }
      FirstOfNone(Vlan);
      FirstBehind(h, rest, Vlan);
    } else {
      FirstOfNone(Vlan);
    }
  }

  lemma FirstOfNone(k: Kind)
    ensures First([], k) == None
  {
  }

  lemma {:induction false} NoteAllFirst(m: seq<byte>, f: Match, hs: seq<Header>)
    requires TagsInside(m, hs)
    ensures var g := NoteAll(m, f, hs);
            && g.vlan == (if f.vlanPresent then f.vlan
                          else match First(hs, Vlan) case None => f.vlan case Some(i) => Some(VlanAt(m, hs[i].off)))
            && g.mpls == (if f.mplsPresent then f.mpls
                          else match First(hs, Mpls) case None => f.mpls case Some(i) => Some(MplsAt(m, hs[i].off)))
    decreases |hs|
  {
    hide VlanAt, MplsAt;
    if hs != [] {
      NoteAllFirst(m, Note(m, f, hs[0]), hs[1..]);
    }
  }

  /** The outermost VLAN tag sits right behind the Ethernet header. */
  lemma FirstVlanIsOutermost(m: seq<byte>, start: nat, end: nat, stray: int)
    requires start <= end <= |m|
    ensures var hs := Classify(m, start, end, stray); First(hs, Vlan) == None || First(hs, Vlan) == Some(1)
  {
    hide Parse, LayerOfType, EthType;
    if end - start >= ETH_HDR {
      var k := LayerOfType(EthType(m, start, end, stray));
      FirstVlanOfParse(m, k, start + ETH_HDR, end);
      FirstBehind(Header(Ether, start, ETH_HDR), Parse(m, k, start + ETH_HDR, end), Vlan);
    }
  }

  lemma FirstVlanOfParse(m: seq<byte>, k: Kind, off: nat, end: nat)
    requires k != Ether
    requires off <= end <= |m|
    ensures First(Parse(m, k, off, end), Vlan) == None || First(Parse(m, k, off, end), Vlan) == Some(0)
  {
    if k != Vlan {
      VlanOnlyFirst(m, k, off, end);
    }
  }

  lemma FirstBehind(h: Header, hs: seq<Header>, k: Kind)
    requires h.kind != k
    ensures First([h] + hs, k) == match First(hs, k) case None => None case Some(i) => Some(i + 1)
  {
    assert ([h] + hs)[1..] == hs;
  }

  /** The match of a classified packet: VLAN id and priority of the outermost VLAN tag, label and
      traffic class of the first MPLS label, and neither when there is no such tag. */
  lemma ClassifiedMatch(m: seq<byte>, start: nat, end: nat, stray: int, ethType: int)
    requires start <= end <= |m|
    ensures var hs := Classify(m, start, end, stray);
            && TagsInside(m, hs)
            && (First(hs, Vlan) == None || First(hs, Vlan) == Some(1))
            && var f := NoteAll(m, EMPTY_MATCH.(ethType := Some(ethType)), hs);
            && f.vlan == (match First(hs, Vlan) case None => None case Some(i) => Some(VlanAt(m, hs[i].off)))
            && f.mpls == (match First(hs, Mpls) case None => None case Some(i) => Some(MplsAt(m, hs[i].off)))
  {
    var hs := Classify(m, start, end, stray);
    FirstVlanIsOutermost(m, start, end, stray);
    ClassifyContiguous(m, start, end, stray);
    assert forall i :: 0 < i < |hs| ==> Sound(hs[i], end);
    NoteAllFirst(m, EMPTY_MATCH.(ethType := Some(ethType)), hs);
  }

  /** Parsing looks only at the octets it covers. */
  lemma {:induction false} ParseDependsOnTail(m: seq<byte>, n: seq<byte>, k: Kind, off: nat, end: nat)
    requires k != Ether
    requires off <= end <= |m| && end <= |n|
    requires m[off..end] == n[off..end]
    ensures Parse(m, k, off, end) == Parse(n, k, off, end)
    decreases end - off
  {
    assert forall i :: off <= i < end ==> m[i] == m[off..end][i - off] == n[off..end][i - off] == n[i];
    NextDependsOnTail(m, n, k, off, end);
    if Fits(m, k, off, end) && Next(m, k, off).Some? {
      var next := Next(m, k, off).value;
      assert m[off + Size(k)..end] == n[off + Size(k)..end];
      hide *;
      ParseDependsOnTail(m, n, next, off + Size(k), end);
      ParseUnfolds(m, k, off, end);
      ParseUnfolds(n, k, off, end);
    } else {
      hide *;
      ParseUnfolds(m, k, off, end);
      ParseUnfolds(n, k, off, end);
    }
  }

  lemma NextDependsOnTail(m: seq<byte>, n: seq<byte>, k: Kind, off: nat, end: nat)
    requires k != Ether
    requires off <= end <= |m| && end <= |n|
    requires forall i :: off <= i < end ==> m[i] == n[i]
    ensures Fits(m, k, off, end) == Fits(n, k, off, end)
    ensures off + Size(k) <= end ==> Next(m, k, off) == Next(n, k, off)
  {
    hide LayerOfType, LayerOfIpv4Proto, LayerOfIpv6Next;
  }

  lemma ParseUnfolds(m: seq<byte>, k: Kind, off: nat, end: nat)
    requires k != Ether
    requires off <= end <= |m|
    ensures !Fits(m, k, off, end) ==> Parse(m, k, off, end) == []
    ensures Fits(m, k, off, end) && Next(m, k, off).None? ==>
            Parse(m, k, off, end) == [Header(k, off, Extent(k, off, end))]
    ensures Fits(m, k, off, end) && Next(m, k, off).Some? ==>
              Parse(m, k, off, end) ==
                  [Header(k, off, Extent(k, off, end))] + Parse(m, Next(m, k, off).value, off + Size(k), end)
  {
    hide Fits, Next, Extent, Size;
  }

  /** The MF flag of section 3.1 of RFC 791. */
  predicate MoreFragments(m: seq<byte>, off: nat)
    requires off + Size(Ipv4) <= |m|
  {
    U16(m, off + 6) / 0x2000 % 2 == 1
  }

  /** What would be listed if parsing ended at a packet that has more fragments to come, and only there. */
  function ParseHonouringMf(m: seq<byte>, off: nat, end: nat): seq<Header>
    requires off + Size(Ipv4) <= end <= |m|
  {
    [Header(Ipv4, off, Size(Ipv4))]
    + if MoreFragments(m, off) then [] else Parse(m, LayerOfIpv4Proto(m[off + 9]), off + Size(Ipv4), end)
  }

  /** Parsing ends at the IPv4 header if and only if the reserved bit, which the classifier tests, is set or
      what follows does not fit. */
  lemma Ipv4EndsIff(m: seq<byte>, off: nat, end: nat)
    requires off + Size(Ipv4) <= end <= |m|
    ensures var k := LayerOfIpv4Proto(m[off + 9]);
            Parse(m, Ipv4, off, end) == [Header(Ipv4, off, Size(Ipv4))]
            <==> m[off + 6] >= 0x80 || !Fits(m, k, off + Size(Ipv4), end)
  {
    hide LayerOfIpv4Proto, Fits, Next;
    Ipv4Parse(m, off, end);
    var rest := Parse(m, LayerOfIpv4Proto(m[off + 9]), off + Size(Ipv4), end);
    assert m[off + 6] < 0x80 ==> |Parse(m, Ipv4, off, end)| == 1 + |rest|;
  }

  lemma Ipv4Next(m: seq<byte>, off: nat, end: nat)
    requires off + Size(Ipv4) <= end <= |m|
    ensures Fits(m, Ipv4, off, end) && Extent(Ipv4, off, end) == Size(Ipv4)
    ensures Next(m, Ipv4, off) == if m[off + 6] >= 0x80 then None else Some(LayerOfIpv4Proto(m[off + 9]))
  {
    assert U16(m, off + 6) / 0x8000 == m[off + 6] / 0x80;
  }

  lemma Ipv4Parse(m: seq<byte>, off: nat, end: nat)
    requires off + Size(Ipv4) <= end <= |m|
    ensures m[off + 6] >= 0x80 ==> Parse(m, Ipv4, off, end) == [Header(Ipv4, off, Size(Ipv4))]
    ensures m[off + 6] < 0x80 ==>
              Parse(m, Ipv4, off, end) ==
              [Header(Ipv4, off, Size(Ipv4))] + Parse(m, LayerOfIpv4Proto(m[off + 9]), off + Size(Ipv4), end)
  {
    hide *;
    Ipv4Next(m, off, end);
    ParseUnfolds(m, Ipv4, off, end);
  }

  /** A fragment is listed as it should be, its transport header not looked for before the last fragment
      has come, if and only if the reserved bit happens to equal the MF flag or nothing more would be
      found behind the IPv4 header anyway. */
  lemma FragmentsListedRightIff(m: seq<byte>, off: nat, end: nat)
    requires off + Size(Ipv4) <= end <= |m|
    ensures Parse(m, Ipv4, off, end) == ParseHonouringMf(m, off, end)
            <==> (m[off + 6] >= 0x80 <==> MoreFragments(m, off))
                 || !Fits(m, LayerOfIpv4Proto(m[off + 9]), off + Size(Ipv4), end)
    ensures MoreFragments(m, off) ==>
              (|Parse(m, Ipv4, off, end)| > 1
               <==> m[off + 6] < 0x80 && Fits(m, LayerOfIpv4Proto(m[off + 9]), off + Size(Ipv4), end))
  {
    hide LayerOfIpv4Proto, Fits, MoreFragments, Next;
    Ipv4Parse(m, off, end);
    var head, rest := [Header(Ipv4, off, Size(Ipv4))], Parse(m, LayerOfIpv4Proto(m[off + 9]), off + Size(Ipv4), end);
    assert |head + rest| == 1 + |rest| && head + [] == head;
    assert rest == [] <==> !Fits(m, LayerOfIpv4Proto(m[off + 9]), off + Size(Ipv4), end);
  }
}
