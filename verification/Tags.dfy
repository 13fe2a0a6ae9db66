/** The tag operations of a packet as functions on values: what push and pop do to the memory area,
    to the position of the packet in it, to the frame list and to the match. */
module Tags {
  import opened Bytes
  import opened Wrappers
  import opened Headers

  /** mem[start..end] is the packet; mem[..start] is the headroom; stray is what lies behind. */
  datatype Packet = Packet(mem: seq<byte>, start: nat, end: nat, hdrs: seq<Header>, match_: Match, stray: int)

  datatype Status = Done | NotFound | OutOfRange

  predicate WellFormed(p: Packet) {
    && p.start <= p.end <= |p.mem|
    && (p.hdrs != [] ==> p.start + ETH_HDR <= p.end && p.hdrs[0] == Header(Ether, p.start, ETH_HDR))
    && (forall i :: 0 < i < |p.hdrs| ==> Sound(p.hdrs[i], p.end))
    && p.start + TotalLen(p.hdrs) <= p.end
  }

  function TotalLen(hs: seq<Header>): nat {
    if hs == [] then 0 else hs[0].len + TotalLen(hs[1..])
  }

  /** The type field of the Ethernet frame lies inside the packet. Where it does not, writing it
      would leave the memory area. */
  predicate TypeInside(p: Packet)
    requires p.start + ETH_HDR <= p.end <= |p.mem|
  {
    TypeOff(p.mem, p.start) + 2 <= p.end
  }

  predicate Editable(p: Packet) {
    && WellFormed(p)
    && (p.hdrs != [] ==> TypeInside(p))
  }

  function TypeOf(p: Packet): int
    requires p.start + ETH_HDR <= p.end <= |p.mem|
  {
    EthType(p.mem, p.start, p.end, p.stray)
  }

  function SetType(m: seq<byte>, start: nat, t: int): (r: seq<byte>)
    requires start + ETH_HDR <= |m| && TypeOff(m, start) + 2 <= |m|
    requires 0 <= t < 0x1_0000
    ensures |r| == |m|
  {
    PutU16(m, TypeOff(m, start), t)
  }

  /** The type goes where the frame keeps it and nothing else changes. It is read back unless an Ethernet II
      frame is given a length for a type, and is from then on read as an 802.3 frame. */
  lemma TypeReadBackIff(m: seq<byte>, start: nat, t: int)
    requires start + 22 <= |m| && 0 <= t < 0x1_0000
    ensures var r := SetType(m, start, t);
            && U16(r, TypeOff(m, start)) == t
            && (forall i :: 0 <= i < |m| && i != TypeOff(m, start) && i != TypeOff(m, start) + 1 ==> r[i] == m[i])
            && (U16(r, TypeOff(r, start)) == t <==> IsLlc(m, start) || t >= MIN_ETHERTYPE || U16(m, start + 20) == t)
  {
    var r := SetType(m, start, t);
    if IsLlc(m, start) {
      U16Injective(r, m, start + 12, start + 12);
    } else {
      U16Injective(r, m, start + 20, start + 20);
    }
  }

  // ---- tag octets -------------------------------------------------------------------------

  // The setters of the tag frames, on the octet they change.

  function SetVid(b: byte, vid: int): byte
    requires 0 <= vid < 0x1000
  {
    b / 16 * 16 + vid / 0x100
  }

  function SetPcp(b: byte, pcp: int): byte
    requires 0 <= pcp < 8
  {
    pcp * 32 + b % 32
  }

  function SetLabel(b: byte, id: int): byte
    requires 0 <= id < 0x10_0000
  {
    id % 16 * 16 + b % 16
  }

  function SetTc(b: byte, tc: int): byte
    requires 0 <= tc < 8
  {
    tc * 2 + b / 16 * 16 + b % 2
  }

  /** Setting the bottom-of-stack bit keeps the other bits of its octet; clearing it keeps only the
      bit itself (the mask is inverted), so it also loses the label's low bits and the traffic class. */
  function SetBos(b: byte, bos: bool): byte {
    if bos then b / 2 * 2 + 1 else b % 2
  }

  function VlanBytes(t: VlanTag, ethType: int): (r: seq<byte>)
    requires 0 <= t.vid < 0x1000 && 0 <= t.pcp < 8 && 0 <= ethType < 0x1_0000
    ensures |r| == TAG_HDR
  {
    [SetPcp(SetVid(0, t.vid), t.pcp), t.vid % 0x100, ethType / 0x100, ethType % 0x100]
  }

  /** The octets of a fresh MPLS tag after its label, traffic class, time to live and
      bottom-of-stack bit have been set in this order. */
  function MplsBytes(t: MplsTag, ttl: byte, bos: bool): (r: seq<byte>)
    requires 0 <= t.id < 0x10_0000 && 0 <= t.tc < 8
    ensures |r| == TAG_HDR
  {
    [t.id / 0x1000, t.id / 16 % 0x100, SetBos(SetTc(SetLabel(0, t.id), t.tc), bos), ttl]
  }

  // ---- moving the Ethernet header ----------------------------------------------------------

  /** Four octets of tag between the Ethernet header, moved forward into the headroom, and the rest. */
  function InsertTag(m: seq<byte>, start: nat, tag: seq<byte>): (r: seq<byte>)
    requires |tag| == TAG_HDR <= start && start + ETH_HDR <= |m|
    ensures |r| == |m|
  {
    m[..start - TAG_HDR] + m[start..start + ETH_HDR] + tag + m[start + ETH_HDR..]
  }

  /** The Ethernet header moved back over the four octets behind it. */
  function RemoveTag(m: seq<byte>, start: nat): (r: seq<byte>)
    requires start + ETH_HDR + TAG_HDR <= |m|
    ensures |r| == |m|
  {
    m[..start + TAG_HDR] + m[start..start + ETH_HDR] + m[start + ETH_HDR + TAG_HDR..]
  }

  function Without(hs: seq<Header>, k: nat): seq<Header>
    requires k < |hs|
  {
    hs[..k] + hs[k + 1..]
  }

  // ---- the operations ----------------------------------------------------------------------

  /** The memory and frame list after a push of kind k with the given tag octets, the new type
      already written; the ethertype is written before the headroom is checked. */
  function Push(p: Packet, ethType: int, k: Kind, tag: seq<byte>): (r: Packet)
    requires Editable(p) && p.hdrs != []
    requires 0 <= ethType < 0x1_0000 && |tag| == TAG_HDR
  {
    var m := SetType(p.mem, p.start, ethType);
    if p.start < TAG_HDR then p.(mem := m)
    else
      var start := p.start - TAG_HDR;
      p.(mem := InsertTag(m, p.start, tag), start := start,
         hdrs := [Header(Ether, start, ETH_HDR)] + ([Header(k, start + ETH_HDR, TAG_HDR)] + p.hdrs[1..]))
  }

  function PushStatus(p: Packet): Status {
    if p.hdrs == [] then NotFound else if p.start < TAG_HDR then OutOfRange else Done
  }

  /** The values a new VLAN tag inherits from the outermost one. */
  function OuterVlan(p: Packet): (t: VlanTag)
    requires WellFormed(p)
    ensures 0 <= t.vid < 0x1000 && 0 <= t.pcp < 8
  {
    match First(p.hdrs, Vlan)
    case None => VlanTag(0, 0)
    case Some(i) => VlanAt(p.mem, p.hdrs[i].off)
  }

  function OuterMpls(p: Packet): (t: (MplsTag, byte, bool))
    requires WellFormed(p)
    ensures 0 <= t.0.id < 0x10_0000 && 0 <= t.0.tc < 8
  {
    match First(p.hdrs, Mpls)
    case None => (MplsTag(0, 0), 0, true)
    case Some(i) => (MplsAt(p.mem, p.hdrs[i].off), p.mem[p.hdrs[i].off + 3], false)
  }

  function PushVlan(p: Packet, ethType: int): (r: Packet)
    requires Editable(p) && 0 <= ethType < 0x1_0000
  {
    if p.hdrs == [] then p
    else
      var t := OuterVlan(p);
      var q := Push(p, ethType, Vlan, VlanBytes(t, U16(p.mem, TypeOff(p.mem, p.start))));
      if p.start < TAG_HDR then q else q.(match_ := p.match_.(vlan := Some(t)))
  }

  function PushMpls(p: Packet, ethType: int): (r: Packet)
    requires Editable(p) && 0 <= ethType < 0x1_0000
  {
    if p.hdrs == [] then p
    else
      var (t, ttl, bos) := OuterMpls(p);
      var q := Push(p, ethType, Mpls, MplsBytes(t, ttl, bos));
      if p.start < TAG_HDR then q else q.(match_ := p.match_.(ethType := Some(ethType), mpls := Some(t)))
  }

  /** Takes frame k out of the list and the four octets behind the Ethernet header out of the packet. */
  function Pop(p: Packet, k: nat, ethType: int): (r: Packet)
    requires Editable(p) && 0 < k < |p.hdrs| && IsTag(p.hdrs[k].kind)
    requires p.start + ETH_HDR + TAG_HDR <= p.end
    requires 0 <= ethType < 0x1_0000
  {
    var start := p.start + TAG_HDR;
    p.(mem := RemoveTag(SetType(p.mem, p.start, ethType), p.start), start := start,
       hdrs := [Header(Ether, start, ETH_HDR)] + Without(p.hdrs[1..], k - 1))
  }

  function PopVlan(p: Packet): (r: Packet)
    requires Editable(p)
  {
    match First(p.hdrs, Vlan)
    case None => p
    case Some(k) =>
      TagFits(p, k);
      var q := Pop(p, k, U16(p.mem, p.hdrs[k].off + 2));
      q.(match_ := p.match_.(vlan := None, ethType := Some(TypeOf(q))))
  }

  function PopMpls(p: Packet, ethType: int): (r: Packet)
    requires Editable(p) && 0 <= ethType < 0x1_0000
  {
    if |p.hdrs| < 2 || p.hdrs[1].kind != Mpls then p
    else
      TagFits(p, 1);
      var q := Pop(p, 1, ethType);
      q.(match_ := p.match_.(mpls := None, ethType := Some(TypeOf(q))))
  }

  lemma {:induction false} TotalLenAt(hs: seq<Header>, k: nat)
    requires k < |hs|
    ensures TotalLen(Without(hs, k)) + hs[k].len == TotalLen(hs)
    decreases k
  {
    if k > 0 {
      TotalLenAt(hs[1..], k - 1);
      assert Without(hs, k)[1..] == Without(hs[1..], k - 1);
    } else {
      assert Without(hs, 0) == hs[1..];
    }
  }

  lemma {:induction false} ContiguousTotal(hs: seq<Header>, off: nat, end: nat)
    requires Contiguous(hs, off, end)
    ensures off + TotalLen(hs) <= end
    decreases |hs|
  {
    if hs != [] {
      ContiguousTotal(hs[1..], hs[0].End(), end);
    }
  }

  /** A listed tag has its four octets in the packet. */
  lemma TagFits(p: Packet, k: nat)
    requires WellFormed(p) && 0 < k < |p.hdrs| && IsTag(p.hdrs[k].kind)
    ensures p.start + ETH_HDR + TAG_HDR <= p.end
  {
    assert Sound(p.hdrs[k], p.end);
    TotalLenAt(p.hdrs[1..], k - 1);
  }

  /** Push and pop keep the packet well formed, whatever the list looks like. */
  lemma PushWellFormed(p: Packet, ethType: int, k: Kind, tag: seq<byte>)
    requires Editable(p) && p.hdrs != [] && IsTag(k) && 0 <= ethType < 0x1_0000 && |tag| == TAG_HDR
    ensures WellFormed(Push(p, ethType, k, tag))
  {
    hide TotalLen, TypeOff, SetType, InsertTag, Sound;
    if p.start >= TAG_HDR {
      TagAdded(p.hdrs, p.start, p.end, k);
    }
  }

  /** The frame list with a tag put second. */
  lemma TagAdded(hs: seq<Header>, start: nat, end: nat, k: Kind)
    requires hs != [] && hs[0] == Header(Ether, start, ETH_HDR) && IsTag(k) && TAG_HDR <= start
            && start + ETH_HDR <= end
    requires forall i :: 0 < i < |hs| ==> Sound(hs[i], end)
    ensures var s := start - TAG_HDR;
            var gs := [Header(Ether, s, ETH_HDR)] + ([Header(k, s + ETH_HDR, TAG_HDR)] + hs[1..]);
            && TotalLen(gs) == TotalLen(hs) + TAG_HDR && gs[0] == Header(Ether, s, ETH_HDR)
            && forall i :: 0 < i < |gs| ==> Sound(gs[i], end)
  {
    var s := start - TAG_HDR;
    var e, t := Header(Ether, s, ETH_HDR), Header(k, s + ETH_HDR, TAG_HDR);
    TotalLenCons(e, [t] + hs[1..]);
    TotalLenCons(t, hs[1..]);
    assert hs == [hs[0]] + hs[1..];
    TotalLenCons(hs[0], hs[1..]);
    hide TotalLen;
    var gs := [e] + ([t] + hs[1..]);
    forall i | 0 < i < |gs| ensures Sound(gs[i], end) {
      assert i > 1 ==> gs[i] == hs[i - 1];
    }
  }

  lemma TotalLenCons(h: Header, hs: seq<Header>)
    ensures TotalLen([h] + hs) == h.len + TotalLen(hs)
  {
    assert ([h] + hs)[1..] == hs;
  }

  lemma PopWellFormed(p: Packet, k: nat, ethType: int)
    requires Editable(p) && 0 < k < |p.hdrs| && IsTag(p.hdrs[k].kind)
    requires p.start + ETH_HDR + TAG_HDR <= p.end
    requires 0 <= ethType < 0x1_0000
    ensures WellFormed(Pop(p, k, ethType))
  {
    hide TotalLen, TypeOff, SetType, RemoveTag, Sound, Without;
    TagDropped(p.hdrs, p.start, p.end, k);
  }

  /** The frame list without a tag. */
  lemma TagDropped(hs: seq<Header>, start: nat, end: nat, k: nat)
    requires 0 < k < |hs| && hs[0] == Header(Ether, start, ETH_HDR) && IsTag(hs[k].kind)
    requires forall i :: 0 < i < |hs| ==> Sound(hs[i], end)
    ensures var gs := [Header(Ether, start + TAG_HDR, ETH_HDR)] + Without(hs[1..], k - 1);
            && TotalLen(gs) + TAG_HDR == TotalLen(hs) && gs[0] == Header(Ether, start + TAG_HDR, ETH_HDR)
            && forall i :: 0 < i < |gs| ==> Sound(gs[i], end)
  {
    var e, rest := Header(Ether, start + TAG_HDR, ETH_HDR), Without(hs[1..], k - 1);
    assert Sound(hs[k], end);
    TotalLenAt(hs[1..], k - 1);
    TotalLenCons(e, rest);
    assert hs == [hs[0]] + hs[1..];
    TotalLenCons(hs[0], hs[1..]);
    hide TotalLen;
    var gs := [e] + rest;
    forall i | 0 < i < |gs| ensures Sound(gs[i], end) {
      assert gs[i] == if i < k then hs[i] else hs[i + 1];
    }
  }
}
