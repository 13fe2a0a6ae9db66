/** What the classifier lists, said frame by frame in the numbers of the standards: IEEE 802.1Q and 802.3,
    RFC 826, RFC 791, RFC 792, RFC 768, RFC 793, RFC 2460, RFC 3032, RFC 4443 and RFC 4960. */
module Listing {
  import opened Bytes
  import opened Wrappers
  import opened Headers

  /** How long a frame of the kind is at least; all but ICMPv4 and payload are just that long. */
  function Least(k: Kind): nat {
    match k
    case Ether => 14
    case Vlan => 4
    case Mpls => 4
    case Arp => 28
    case Ipv4 => 20
    case Icmpv4 => 4
    case Ipv6 => 40
    case Icmpv6 => 4
    case Udp => 8
    case Tcp => 20
    case Sctp => 12
    case Payload => 1
  }

  function OfEtherType(t: int): (k: Kind)
    ensures k != Ether
  {
    match t
    case 0x8100 => Vlan
    case 0x88a8 => Vlan
    case 0x88e7 => Vlan
    case 0x8847 => Mpls
    case 0x8848 => Mpls
    case 0x0806 => Arp
    case 0x0800 => Ipv4
    case 0x86dd => Ipv6
    case _ => Payload
  }

  /** The kind that the octets of a header behind the Ethernet header announce, or None where none is looked for:
      behind ICMPv4 and payload, and behind an IPv4 header with the reserved bit set. */
  function Announced(m: seq<byte>, k: Kind, off: nat): (r: Option<Kind>)
    requires k != Ether && off + Least(k) <= |m|
    ensures r.Some? ==> r.value != Ether
  {
    match k
    case Vlan => Some(OfEtherType(m[off + 2] as int * 0x100 + m[off + 3]))
    case Mpls => Some(if m[off + 2] % 2 == 1 then Payload else Mpls)
    case Ipv4 =>
      if m[off + 6] >= 0x80 then None
      else Some(match m[off + 9]
                case 1 => Icmpv4
                case 4 => Ipv4
                case 6 => Tcp
                case 17 => Udp
                case 41 => Ipv6
                case 132 => Sctp
                case _ => Payload)
    case Ipv6 =>
      Some(match m[off + 6]
           case 4 => Ipv4
           case 6 => Tcp
           case 17 => Udp
           case 41 => Ipv6
           case 58 => Icmpv6
           case 132 => Sctp
           case _ => Payload)
    case Icmpv4 => None
    case Payload => None
    case _ => Some(Payload)
  }

  /** There are octets enough for the kind; an IPv6 header with an extension header next is never listed. */
  predicate HasRoom(m: seq<byte>, k: Kind, off: nat, end: nat)
    requires off <= end <= |m|
  {
    && off + Least(k) <= end
    && (k == Ipv6 ==> !(m[off] / 16 == 6 && (m[off + 6] == 0 || m[off + 6] == 43 || m[off + 6] == 44
                                            || m[off + 6] == 60 || m[off + 6] == 135)))
  }

  /** A frame of its own length; ICMPv4 and payload take all that is left. */
  predicate RightLength(h: Header, end: nat) {
    if h.kind == Icmpv4 || h.kind == Payload then Least(h.kind) <= h.len && h.off + h.len == end
    else h.len == Least(h.kind) && h.off + h.len <= end
  }

  /** h is followed by what its octets announce, if there is room for that, and else by nothing. */
  predicate WellFollowed(m: seq<byte>, hs: seq<Header>, i: nat, end: nat)
    requires end <= |m| && i < |hs| && hs[i].kind != Ether && RightLength(hs[i], end)
  {
    var h := hs[i];
    var next := Announced(m, h.kind, h.off);
    && (i + 1 < |hs| <==> next.Some? && HasRoom(m, next.value, h.off + h.len, end))
    && (i + 1 < |hs| ==> hs[i + 1].kind == next.value && hs[i + 1].off == h.off + h.len)
  }

  /** The list from a header of kind k at off on. */
  predicate ListedFrom(m: seq<byte>, hs: seq<Header>, k: Kind, off: nat, end: nat)
    requires off <= end <= |m|
  {
    && (hs != [] <==> HasRoom(m, k, off, end))
    && (hs != [] ==> hs[0].kind == k && hs[0].off == off)
    && (forall i :: 0 <= i < |hs| ==> hs[i].kind != Ether && RightLength(hs[i], end))
    && (forall i :: 0 <= i < |hs| ==> WellFollowed(m, hs, i, end))
  }

  /** The type of the Ethernet frame: in octets 12 and 13, or, where these hold a length, behind the LLC/SNAP
      header. */
  function FrameType(m: seq<byte>, start: nat, end: nat, stray: int): int
    requires start + 14 <= end <= |m|
  {
    var t := m[start + 12] as int * 0x100 + m[start + 13];
    if t >= 0x600 then t
    else if start + 22 <= end then m[start + 20] as int * 0x100 + m[start + 21] else stray
  }

  /** The list of a packet: nothing for fewer than 14 octets; else the Ethernet frame and what its type
      announces. */
  predicate Listed(m: seq<byte>, hs: seq<Header>, start: nat, end: nat, stray: int)
    requires start <= end <= |m|
  {
    if end < start + 14 then hs == []
    else
      && hs != [] && hs[0] == Header(Ether, start, 14)
      && ListedFrom(m, hs[1..], OfEtherType(FrameType(m, start, end, stray)), start + 14, end)
  }

  // ---- the classifier lists this and nothing else ---------------------------------------------

  lemma RoomIs(m: seq<byte>, k: Kind, off: nat, end: nat)
    requires k != Ether && off <= end <= |m|
    ensures HasRoom(m, k, off, end) <==> Fits(m, k, off, end)
    ensures Least(k) == Size(k)
  {
  }

  lemma TypeIs(t: int)
    ensures OfEtherType(t) == LayerOfType(t)
  {
  }

  lemma AnnouncedIs(m: seq<byte>, k: Kind, off: nat)
    requires k != Ether && off + Least(k) <= |m| && off + Size(k) <= |m|
    ensures Announced(m, k, off) == Next(m, k, off)
  {
    if k == Vlan {
      TypeIs(U16(m, off + 2));
    } else if k == Ipv4 {
      assert U16(m, off + 6) / 0x8000 == m[off + 6] / 0x80;
    }
  }

  lemma RightLengthIs(k: Kind, off: nat, end: nat)
    requires k != Ether && off + Least(k) <= end && off + Size(k) <= end
    ensures forall n: nat :: RightLength(Header(k, off, n), end) <==> n == Extent(k, off, end)
  {
  }

  lemma FollowedBehind(m: seq<byte>, h: Header, rest: seq<Header>, i: nat, end: nat)
    requires end <= |m| && i < |rest| && rest[i].kind != Ether && RightLength(rest[i], end)
    ensures WellFollowed(m, [h] + rest, i + 1, end) <==> WellFollowed(m, rest, i, end)
  {
    hide Announced, HasRoom, RightLength;
    var hs := [h] + rest;
    assert hs[i + 1] == rest[i] && (i + 1 < |rest| ==> hs[i + 2] == rest[i + 1]);
  }

  /** What the list behind a right header h has to be. */
  predicate RestListed(m: seq<byte>, h: Header, rest: seq<Header>, end: nat)
    requires end <= |m| && h.kind != Ether && RightLength(h, end)
  {
    var next := Announced(m, h.kind, h.off);
    if next.None? then rest == [] else next.value != Ether && ListedFrom(m, rest, next.value, h.off + h.len, end)
  }

  /** A list is right if it begins with the right frame and goes on rightly. */
  lemma ListedCons(m: seq<byte>, h: Header, rest: seq<Header>, k: Kind, off: nat, end: nat)
    requires k != Ether && off <= end <= |m| && HasRoom(m, k, off, end) && h.off == off && h.kind == k
    requires RightLength(h, end) && RestListed(m, h, rest, end)
    ensures ListedFrom(m, [h] + rest, k, off, end)
  {
    var hs := [h] + rest;
    hide Announced, HasRoom, RightLength;
    forall i | 0 <= i < |hs| ensures hs[i].kind != Ether && RightLength(hs[i], end) && WellFollowed(m, hs, i, end) {
      if i > 0 {
        assert hs[i] == rest[i - 1];
        FollowedBehind(m, h, rest, i - 1, end);
      }
    }
  }

  /** And only if. */
  lemma ListedTail(m: seq<byte>, hs: seq<Header>, k: Kind, off: nat, end: nat)
    requires k != Ether && off <= end <= |m| && hs != [] && ListedFrom(m, hs, k, off, end)
    ensures RestListed(m, hs[0], hs[1..], end)
  {
    hide Announced, HasRoom, RightLength;
    var h, rest := hs[0], hs[1..];
    assert hs == [h] + rest && WellFollowed(m, hs, 0, end);
    forall i | 0 <= i < |rest|
      ensures rest[i].kind != Ether && RightLength(rest[i], end) && WellFollowed(m, rest, i, end)
    {
      assert hs[i + 1] == rest[i];
      assert WellFollowed(m, hs, i + 1, end);
      FollowedBehind(m, h, rest, i, end);
    }
    assert rest != [] ==> hs[1].kind != Ether;
  }

  lemma NothingListed(m: seq<byte>, hs: seq<Header>, k: Kind, off: nat, end: nat)
    requires off <= end <= |m| && !HasRoom(m, k, off, end)
    ensures ListedFrom(m, hs, k, off, end) <==> hs == []
  {
  }

  lemma FirstListed(m: seq<byte>, hs: seq<Header>, k: Kind, off: nat, end: nat)
    requires off <= end <= |m| && HasRoom(m, k, off, end) && ListedFrom(m, hs, k, off, end)
    ensures hs != [] && hs[0].kind == k && hs[0].off == off && RightLength(hs[0], end)
  {
  }

  /** The frame that the classifier lists first, and where it goes on. */
  lemma ParsedFirst(m: seq<byte>, k: Kind, off: nat, end: nat)
    requires k != Ether && off <= end <= |m| && HasRoom(m, k, off, end)
    ensures off + Least(k) <= |m| && off + Size(k) <= end && Fits(m, k, off, end)
    ensures var h := Header(k, off, Extent(k, off, end));
            && RightLength(h, end)
            && (forall g: Header :: g.kind == k && g.off == off && RightLength(g, end) ==> g == h)
            && (Next(m, k, off).Some? ==> h.len == Size(k))
    ensures Announced(m, k, off) == Next(m, k, off)
  {
    RoomIs(m, k, off, end);
    AnnouncedIs(m, k, off);
  }

  /** From any layer on, the classifier's list is right, and it is the only one that is. */
  lemma {:induction false} ParsedIff(m: seq<byte>, hs: seq<Header>, k: Kind, off: nat, end: nat)
    requires k != Ether && off <= end <= |m|
    ensures ListedFrom(m, hs, k, off, end) <==> hs == Parse(m, k, off, end)
    decreases end - off
  {
    hide ListedFrom, Announced, Next, HasRoom, Fits, RightLength, Extent, Parse, Least, Size;
    RoomIs(m, k, off, end);
    ParseUnfolds(m, k, off, end);
    if !HasRoom(m, k, off, end) {
      NothingListed(m, hs, k, off, end);
    } else {
      ParsedFirst(m, k, off, end);
      var h, next := Header(k, off, Extent(k, off, end)), Next(m, k, off);
      if ListedFrom(m, hs, k, off, end) {
        FirstListed(m, hs, k, off, end);
        ListedTail(m, hs, k, off, end);
        assert hs == [h] + hs[1..];
        if next.Some? {
          ParsedIff(m, hs[1..], next.value, off + Size(k), end);
        }
      }
      var rest := if next.None? then [] else Parse(m, next.value, off + Size(k), end);
      assert [h] + [] == [h];
      if next.Some? {
        ParsedIff(m, rest, next.value, off + Size(k), end);
      }
      ListedCons(m, h, rest, k, off, end);
    }
  }

  /** For every buffer: a list of frames is the one that the classifier makes of it if and only if the Ethernet
      frame comes first and each frame is followed by what its octets announce, where there is room for that. */
  lemma ClassifiedIff(m: seq<byte>, hs: seq<Header>, start: nat, end: nat, stray: int)
    requires start <= end <= |m|
    ensures Listed(m, hs, start, end, stray) <==> hs == Classify(m, start, end, stray)
  {
    hide ListedFrom, Parse, FrameType, EthType, OfEtherType, LayerOfType;
    if start + 14 <= end {
      var t := EthType(m, start, end, stray);
      FrameTypeIs(m, start, end, stray);
      TypeIs(t);
      var e, rest := Header(Ether, start, 14), Parse(m, LayerOfType(t), start + 14, end);
      if hs != [] {
        ParsedIff(m, hs[1..], LayerOfType(t), start + 14, end);
        assert hs == [hs[0]] + hs[1..];
      }
      assert ([e] + rest)[1..] == rest;
    }
  }

  lemma FrameTypeIs(m: seq<byte>, start: nat, end: nat, stray: int)
    requires start + 14 <= end <= |m|
    ensures FrameType(m, start, end, stray) == EthType(m, start, end, stray)
  {
  }

  // ---- what the match says --------------------------------------------------------------------

  predicate IsFirst(hs: seq<Header>, k: nat, kind: Kind) {
    k < |hs| && hs[k].kind == kind && forall j :: 0 <= j < k ==> hs[j].kind != kind
  }

  predicate IsLast(hs: seq<Header>, k: nat, kind: Kind) {
    k < |hs| && hs[k].kind == kind && forall j :: k < j < |hs| ==> hs[j].kind != kind
  }

  predicate Lacks(hs: seq<Header>, kind: Kind) {
    forall j :: 0 <= j < |hs| ==> hs[j].kind != kind
  }

  /** The type of the match: that of the last VLAN tag, or else t. */
  ghost predicate TypeSays(m: seq<byte>, hs: seq<Header>, t: int, said: Option<int>)
    requires TagsInside(m, hs)
  {
    && (Lacks(hs, Vlan) ==> said == Some(t))
    && (forall k: nat :: IsLast(hs, k, Vlan) ==> said == Some(m[hs[k].off + 2] as int * 0x100 + m[hs[k].off + 3]))
  }

  /** Id and priority: those of the first VLAN tag, or none. */
  ghost predicate VlanSays(m: seq<byte>, hs: seq<Header>, said: Option<VlanTag>)
    requires TagsInside(m, hs)
  {
    && (Lacks(hs, Vlan) ==> said == None)
    && (forall k: nat :: IsFirst(hs, k, Vlan) ==>
          said == Some(VlanTag(m[hs[k].off] as int % 16 * 0x100 + m[hs[k].off + 1], m[hs[k].off] / 32)))
  }

  /** Label and traffic class: those of the first MPLS tag, or none. */
  ghost predicate MplsSays(m: seq<byte>, hs: seq<Header>, said: Option<MplsTag>)
    requires TagsInside(m, hs)
  {
    && (Lacks(hs, Mpls) ==> said == None)
    && (forall k: nat :: IsFirst(hs, k, Mpls) ==>
          said == Some(MplsTag(m[hs[k].off] as int * 0x1000 + m[hs[k].off + 1] as int * 16 + m[hs[k].off + 2] / 16,
                               m[hs[k].off + 2] % 16 / 2)))
  }

  lemma {:induction false} TypeNoted(m: seq<byte>, f: Match, hs: seq<Header>, t: int)
    requires TagsInside(m, hs) && f.ethType == Some(t)
    ensures TypeSays(m, hs, t, NoteAll(m, f, hs).ethType)
    decreases |hs|
  {
    hide VlanAt, MplsAt, TypeSays;
    if hs == [] {
      NothingSaid(m, t);
    } else {
      var h, rest := hs[0], hs[1..];
      assert TagsInside(m, rest) && hs == [h] + rest;
      var next := if h.kind == Vlan then U16(m, h.off + 2) else t;
      TypeNoted(m, Note(m, f, h), rest, next);
      TypeBehind(m, h, rest, t, NoteAll(m, f, hs).ethType);
    }
  }

  lemma NothingSaid(m: seq<byte>, t: int)
    ensures TagsInside(m, []) && TypeSays(m, [], t, Some(t))
  {
  }

  /** How the lists of tags look behind a further frame h. */
  lemma LastBehind(h: Header, rest: seq<Header>, k: nat, kind: Kind)
    ensures IsLast([h] + rest, k + 1, kind) <==> IsLast(rest, k, kind)
  {
    var hs := [h] + rest;
    if IsLast(rest, k, kind) {
      forall j | k + 1 < j < |hs| ensures hs[j].kind != kind {
        assert hs[j] == rest[j - 1];
      }
    }
    if IsLast(hs, k + 1, kind) {
      forall j | k < j < |rest| ensures rest[j].kind != kind {
        assert hs[j + 1] == rest[j];
      }
    }
  }

  lemma LacksBehind(h: Header, rest: seq<Header>, kind: Kind)
    ensures Lacks([h] + rest, kind) <==> h.kind != kind && Lacks(rest, kind)
    ensures IsLast([h] + rest, 0, kind) <==> h.kind == kind && Lacks(rest, kind)
  {
    var hs := [h] + rest;
    assert hs[0] == h;
    if Lacks(rest, kind) {
      forall j | 0 < j < |hs| ensures hs[j].kind != kind {
        assert hs[j] == rest[j - 1];
      }
    }
    if forall j :: 0 < j < |hs| ==> hs[j].kind != kind {
      forall j | 0 <= j < |rest| ensures rest[j].kind != kind {
        assert hs[j + 1] == rest[j];
      }
    }
  }

  lemma TypeBehindAt(m: seq<byte>, h: Header, rest: seq<Header>, t: int, said: Option<int>, k: nat)
    requires TagsInside(m, rest) && (h.kind == Vlan ==> h.off + 4 <= |m|) && IsLast([h] + rest, k, Vlan)
    requires TypeSays(m, rest, if h.kind == Vlan then U16(m, h.off + 2) else t, said)
    ensures var at := ([h] + rest)[k].off;
            at + 4 <= |m| && said == Some(m[at + 2] as int * 0x100 + m[at + 3])
  {
    hide Lacks;
    if k == 0 {
      LacksBehind(h, rest, Vlan);
    } else {
      LastBehind(h, rest, k - 1, Vlan);
      assert ([h] + rest)[k] == rest[k - 1];
    }
  }

  lemma TypeBehind(m: seq<byte>, h: Header, rest: seq<Header>, t: int, said: Option<int>)
    requires TagsInside(m, [h] + rest) && TagsInside(m, rest) && (h.kind == Vlan ==> h.off + 4 <= |m|)
    requires TypeSays(m, rest, if h.kind == Vlan then U16(m, h.off + 2) else t, said)
    ensures TypeSays(m, [h] + rest, t, said)
  {
    hide Lacks, TagsInside;
    LacksBehind(h, rest, Vlan);
    forall k: nat | IsLast([h] + rest, k, Vlan)
      ensures var at := ([h] + rest)[k].off;
              at + 4 <= |m| && said == Some(m[at + 2] as int * 0x100 + m[at + 3])
    {
      TypeBehindAt(m, h, rest, t, said, k);
    }
  }

  /** The match of a classified packet, in its octets. */
  lemma MatchIs(m: seq<byte>, start: nat, end: nat, stray: int)
    requires start + 14 <= end <= |m|
    ensures TagsInside(m, Classify(m, start, end, stray))
    ensures var hs := Classify(m, start, end, stray);
            var f := NoteAll(m, EMPTY_MATCH.(ethType := Some(EthType(m, start, end, stray))), hs);
            && TypeSays(m, hs, FrameType(m, start, end, stray), f.ethType)
            && VlanSays(m, hs, f.vlan) && MplsSays(m, hs, f.mpls)
  {
    hide Parse, Classify, EthType, FrameType, NoteAll, First, TypeSays, VlanSays, MplsSays;
    var t := EthType(m, start, end, stray);
    var hs := Classify(m, start, end, stray);
    ClassifiedMatch(m, start, end, stray, t);
    FrameTypeIs(m, start, end, stray);
    TypeNoted(m, EMPTY_MATCH.(ethType := Some(t)), hs, t);
    VlanSaid(m, hs);
    MplsSaid(m, hs);
  }

  lemma VlanSaid(m: seq<byte>, hs: seq<Header>)
    requires TagsInside(m, hs)
    ensures VlanSays(m, hs, match First(hs, Vlan) case None => None case Some(i) => Some(VlanAt(m, hs[i].off)))
  {
    FirstsAre(hs, Vlan);
    hide First;
  }

  lemma MplsSaid(m: seq<byte>, hs: seq<Header>)
    requires TagsInside(m, hs)
    ensures MplsSays(m, hs, match First(hs, Mpls) case None => None case Some(i) => Some(MplsAt(m, hs[i].off)))
  {
    FirstsAre(hs, Mpls);
    hide First;
  }

  lemma FirstsAre(hs: seq<Header>, kind: Kind)
    ensures forall k: nat :: IsFirst(hs, k, kind) ==> First(hs, kind) == Some(k)
    ensures Lacks(hs, kind) ==> First(hs, kind) == None
  {
  }
}
