/** Laws of the tag operations: what a push and its pop restore, over every properly nested run; when
    the edited frame list is the one a fresh classification would give; what a pushed tag inherits. */
module TagLaws {
  import opened Bytes
  import opened Wrappers
  import opened Headers
  import opened Tags

  /** The frame list tiles the packet from its start, as after a classification. */
  predicate Tidy(p: Packet) {
    WellFormed(p) && p.hdrs != [] && Contiguous(p.hdrs, p.start, p.end)
  }

  /** Same place, same octets from there on, same frames: everything but what is left in the headroom. */
  predicate Same(p: Packet, q: Packet) {
    && p.start == q.start <= p.end == q.end <= |p.mem| == |q.mem|
    && p.mem[p.start..] == q.mem[q.start..]
    && p.hdrs == q.hdrs && p.stray == q.stray
  }

  // ---- the octets of the packet, taken from its start ---------------------------------------

  lemma SetTypeSuffix(m: seq<byte>, s: nat, t: int)
    requires s + ETH_HDR <= |m| && TypeOff(m, s) + 2 <= |m| && 0 <= t < 0x1_0000
    ensures TypeOff(m[s..], 0) + s == TypeOff(m, s)
    ensures SetType(m, s, t)[s..] == SetType(m[s..], 0, t)
  {
    assert U16(m[s..], 12) == U16(m, s + 12);
  }

  lemma InsertTagSuffix(m: seq<byte>, s: nat, tag: seq<byte>)
    requires |tag| == TAG_HDR <= s && s + ETH_HDR <= |m|
    ensures InsertTag(m, s, tag)[s - TAG_HDR..] == InsertBytes(m[s..], tag)
    ensures InsertTag(m, s, tag)[s + ETH_HDR..] == m[s + ETH_HDR..]
  {
  }

  lemma RemoveTagSuffix(m: seq<byte>, s: nat)
    requires s + ETH_HDR + TAG_HDR <= |m|
    ensures RemoveTag(m, s)[s + TAG_HDR..] == RemoveBytes(m[s..])
    ensures RemoveTag(m, s)[s + ETH_HDR + TAG_HDR..] == m[s + ETH_HDR + TAG_HDR..]
  {
  }

  function InsertBytes(b: seq<byte>, tag: seq<byte>): (r: seq<byte>)
    requires ETH_HDR <= |b| && |tag| == TAG_HDR
    ensures |r| == |b| + TAG_HDR
  {
    b[..ETH_HDR] + tag + b[ETH_HDR..]
  }

  function RemoveBytes(b: seq<byte>): (r: seq<byte>)
    requires ETH_HDR + TAG_HDR <= |b|
    ensures |r| == |b| - TAG_HDR
  {
    b[..ETH_HDR] + b[ETH_HDR + TAG_HDR..]
  }

  /** The condition under which a pop undoes a push: either the frame is Ethernet II and stays so
      under the pushed type, or it is 802.3 and the two octet pairs the code overwrites in its
      payload happen to hold the right values. */
  predicate Restorable(b: seq<byte>, ethType: int)
    requires ETH_HDR <= |b| && TypeOff(b, 0) + 2 <= |b|
  {
    if IsLlc(b, 0) then ethType == U16(b, 20) == U16(b, 16) else ethType >= MIN_ETHERTYPE
  }

  lemma PushPopBytes(b: seq<byte>, ethType: int, tag: seq<byte>)
    requires ETH_HDR <= |b| && TypeOff(b, 0) + 2 <= |b|
    requires 0 <= ethType < 0x1_0000 && |tag| == TAG_HDR
    requires var c := InsertBytes(SetType(b, 0, ethType), tag); TypeOff(c, 0) + 2 <= |c|
    ensures var c := InsertBytes(SetType(b, 0, ethType), tag);
            RemoveBytes(SetType(c, 0, U16(b, TypeOff(b, 0)))) == b <==> Restorable(b, ethType)
  {
    var t := U16(b, TypeOff(b, 0));
    var b1 := SetType(b, 0, ethType);
    var c := InsertBytes(b1, tag);
    var d := SetType(c, 0, t);
    var r := RemoveBytes(d);
    assert c[12] == b1[12] && c[13] == b1[13];
    assert U16(c, 12) == U16(b1, 12);
    if IsLlc(b, 0) {
      assert U16(b1, 12) == U16(b, 12);
      assert d == PutU16(c, 20, t);
      assert forall i :: 0 <= i < |b| && i != 16 && i != 17 ==> r[i] == b1[i];
      assert r[16] == d[20] && r[17] == d[21] && U16(r, 16) == t;
      assert U16(r, 20) == U16(b1, 20) == ethType;
      if ethType == t && U16(b, 16) == t {
        U16Injective(r, b, 16, 16);
        U16Injective(r, b, 20, 20);
        assert r == b;
      }
    } else if ethType >= MIN_ETHERTYPE {
      assert forall i :: 0 <= i < |b| && i != 12 && i != 13 ==> r[i] == b[i];
      assert U16(r, 12) == U16(d, 12) == t;
      U16Injective(r, b, 12, 12);
      assert r == b;
    } else {
      assert U16(r, 12) == U16(d, 12) == U16(c, 12) == ethType;
    }
  }

  // ---- invariants kept --------------------------------------------------------------------

  lemma PushKeepsTidy(p: Packet, ethType: int, k: Kind, tag: seq<byte>)
    requires Tidy(p) && Editable(p) && IsTag(k)
    requires 0 <= ethType < 0x1_0000 && |tag| == TAG_HDR <= p.start
    ensures Tidy(Push(p, ethType, k, tag))
  {
    hide Contiguous, TotalLen, Sound, SetType, InsertTag;
    PushWellFormed(p, ethType, k, tag);
    AddTag(p.hdrs, p.start, p.end, k);
  }

  lemma AddTag(hs: seq<Header>, start: nat, end: nat, k: Kind)
    requires hs != [] && hs[0] == Header(Ether, start, ETH_HDR) && Contiguous(hs, start, end)
    requires TAG_HDR <= start
    ensures var s := start - TAG_HDR;
            Contiguous([Header(Ether, s, ETH_HDR)] + ([Header(k, s + ETH_HDR, TAG_HDR)] + hs[1..]), s, end)
  {
    var s := start - TAG_HDR;
    var ts := [Header(k, s + ETH_HDR, TAG_HDR)] + hs[1..];
    var gs := [Header(Ether, s, ETH_HDR)] + ts;
    assert gs[1..] == ts && ts[1..] == hs[1..];
    assert Contiguous(ts, s + ETH_HDR, end);
  }

  lemma PopKeepsTidy(p: Packet, ethType: int)
    requires Tidy(p) && Editable(p) && |p.hdrs| > 1 && IsTag(p.hdrs[1].kind)
    requires p.start + ETH_HDR + TAG_HDR <= p.end && 0 <= ethType < 0x1_0000
    ensures Tidy(Pop(p, 1, ethType))
    ensures Pop(p, 1, ethType).hdrs[1..] == p.hdrs[2..]
  {
    var q := Pop(p, 1, ethType);
    DropTag(p.hdrs, p.start, p.end);
    assert q.hdrs == [Header(Ether, p.start + TAG_HDR, ETH_HDR)] + p.hdrs[2..];
    assert forall i :: 0 < i < |q.hdrs| ==> q.hdrs[i] == p.hdrs[i + 1];
  }

  lemma DropTag(hs: seq<Header>, start: nat, end: nat)
    requires |hs| > 1 && hs[0] == Header(Ether, start, ETH_HDR) && Contiguous(hs, start, end)
    requires Sound(hs[1], end) && IsTag(hs[1].kind)
    ensures Without(hs[1..], 0) == hs[2..]
    ensures var gs := [Header(Ether, start + TAG_HDR, ETH_HDR)] + hs[2..];
            Contiguous(gs, start + TAG_HDR, end) && TotalLen(gs) + TAG_HDR == TotalLen(hs)
  {
    var gs := [Header(Ether, start + TAG_HDR, ETH_HDR)] + hs[2..];
    assert hs[1..][1..] == hs[2..] && gs[1..] == hs[2..];
    assert TotalLen(hs) == ETH_HDR + TotalLen(hs[1..]) == ETH_HDR + TAG_HDR + TotalLen(hs[2..]);
  }

  /** A push stores its octets where the packet now starts, behind the moved Ethernet header. */
  lemma PushOctets(p: Packet, ethType: int, k: Kind, tag: seq<byte>)
    requires Tidy(p) && Editable(p)
    requires 0 <= ethType < 0x1_0000 && |tag| == TAG_HDR <= p.start
    ensures var q := Push(p, ethType, k, tag);
            && q.mem[q.start..] == InsertBytes(SetType(p.mem[p.start..], 0, ethType), tag)
            && (forall i :: 0 <= i < TAG_HDR ==> q.mem[q.start + ETH_HDR + i] == tag[i])
            && (!IsLlc(p.mem, p.start) ==> U16(q.mem, q.start + 12) == ethType)
  {
    var m := SetType(p.mem, p.start, ethType);
    SetTypeSuffix(p.mem, p.start, ethType);
    InsertTagSuffix(m, p.start, tag);
  }

  /** The type field of the frame stays inside the packet, also where the frame is LLC from then on. */
  predicate RoomForType(p: Packet, ethType: int) {
    ethType >= MIN_ETHERTYPE || p.start + 18 <= p.end
  }

  lemma PushKeepsEditable(p: Packet, ethType: int, k: Kind, tag: seq<byte>)
    requires Tidy(p) && Editable(p) && IsTag(k) && RoomForType(p, ethType)
    requires 0 <= ethType < 0x1_0000 && |tag| == TAG_HDR <= p.start
    ensures Editable(Push(p, ethType, k, tag))
  {
    var q := Push(p, ethType, k, tag);
    PushWellFormed(p, ethType, k, tag);
    PushOctets(p, ethType, k, tag);
    var b := SetType(p.mem[p.start..], 0, ethType);
    hide Contiguous, TotalLen, WellFormed, InsertTag;
    assert q.hdrs != [] && q.start + ETH_HDR <= q.end <= |q.mem|;
    assert q.mem[q.start..][12] == b[12] && q.mem[q.start..][13] == b[13];
  }

  // ---- one push and its pop ---------------------------------------------------------------

  lemma PushPop(p: Packet, ethType: int, k: Kind, tag: seq<byte>, f: Match)
    requires Tidy(p) && Editable(p) && IsTag(k)
    requires 0 <= ethType < 0x1_0000 && |tag| == TAG_HDR <= p.start
    requires Editable(Push(p, ethType, k, tag).(match_ := f))
    ensures var q := Push(p, ethType, k, tag).(match_ := f);
            var r := Pop(q, 1, U16(p.mem, TypeOff(p.mem, p.start)));
            && r.start == p.start && r.end == p.end && r.hdrs == p.hdrs
            && (Same(r, p) <==> Restorable(p.mem[p.start..], ethType))
  {
    var q := Push(p, ethType, k, tag).(match_ := f);
    PushKeepsTidy(p, ethType, k, tag);
    PushOctets(p, ethType, k, tag);
    var t := U16(p.mem, TypeOff(p.mem, p.start));
    var r := Pop(q, 1, t);
    PopKeepsTidy(q, t);
    assert q.hdrs[2..] == p.hdrs[1..];
    assert r.hdrs == [p.hdrs[0]] + p.hdrs[1..] == p.hdrs;
    PushPopMemory(p, ethType, tag);
  }

  lemma PushPopMemory(p: Packet, ethType: int, tag: seq<byte>)
    requires Editable(p) && p.hdrs != []
    requires 0 <= ethType < 0x1_0000 && |tag| == TAG_HDR <= p.start
    requires var m := InsertTag(SetType(p.mem, p.start, ethType), p.start, tag);
             TypeOff(m, p.start - TAG_HDR) + 2 <= |m|
    ensures var m := InsertTag(SetType(p.mem, p.start, ethType), p.start, tag);
            var n := RemoveTag(SetType(m, p.start - TAG_HDR, U16(p.mem, TypeOff(p.mem, p.start))), p.start - TAG_HDR);
            n[p.start..] == p.mem[p.start..] <==> Restorable(p.mem[p.start..], ethType)
  {
    var s := p.start;
    var t := U16(p.mem, TypeOff(p.mem, s));
    var b := p.mem[s..];
    var m := InsertTag(SetType(p.mem, s, ethType), s, tag);
    SetTypeSuffix(p.mem, s, ethType);
    InsertTagSuffix(SetType(p.mem, s, ethType), s, tag);
    SetTypeSuffix(m, s - TAG_HDR, t);
    RemoveTagSuffix(SetType(m, s - TAG_HDR, t), s - TAG_HDR);
    assert U16(b, TypeOff(b, 0)) == t;
    PushPopBytes(b, ethType, tag);
  }

  /** pop_vlan after push_vlan gives back place, length and frame list on every packet, and the
      octets exactly when the frame is Ethernet II and the pushed type is an ethertype (or an 802.3
      frame holds the pushed type in the two octet pairs that get overwritten). */
  lemma PushPopVlanIff(p: Packet, ethType: int)
    requires Tidy(p) && Editable(p) && TAG_HDR <= p.start && 0 <= ethType < 0x1_0000
    requires RoomForType(p, ethType)
    ensures Editable(PushVlan(p, ethType))
    ensures var r := PopVlan(PushVlan(p, ethType));
            && r.start == p.start && r.end == p.end && r.hdrs == p.hdrs
            && (Same(r, p) <==> Restorable(p.mem[p.start..], ethType))
  {
    hide Restorable, Contiguous, TotalLen, OuterVlan, VlanBytes, InsertTag, RemoveTag, IsLlc;
    var tag := VlanBytes(OuterVlan(p), U16(p.mem, TypeOff(p.mem, p.start)));
    var q := PushVlan(p, ethType);
    PushKeepsEditable(p, ethType, Vlan, tag);
    PushOctets(p, ethType, Vlan, tag);
    PushedFirst(p, ethType, Vlan, tag);
    VlanBytesType(OuterVlan(p), U16(p.mem, TypeOff(p.mem, p.start)));
    SameU16(q.mem, q.start + ETH_HDR, tag);
    PushPop(p, ethType, Vlan, tag, q.match_);
  }

  lemma VlanBytesType(t: VlanTag, ethType: int)
    requires 0 <= t.vid < 0x1000 && 0 <= t.pcp < 8 && 0 <= ethType < 0x1_0000
    ensures U16(VlanBytes(t, ethType), 2) == ethType
  {
  }

  lemma SameU16(m: seq<byte>, o: nat, tag: seq<byte>)
    requires |tag| == TAG_HDR && o + TAG_HDR <= |m|
    requires forall i :: 0 <= i < TAG_HDR ==> m[o + i] == tag[i]
    ensures U16(m, o + 2) == U16(tag, 2)
  {
    assert m[o + 2] == tag[2] && m[o + 3] == tag[3];
  }

  lemma PushedFirst(p: Packet, ethType: int, k: Kind, tag: seq<byte>)
    requires Editable(p) && p.hdrs != [] && IsTag(k)
    requires 0 <= ethType < 0x1_0000 && |tag| == TAG_HDR <= p.start
    ensures var hs := Push(p, ethType, k, tag).hdrs;
            |hs| > 1 && hs[1] == Header(k, p.start - TAG_HDR + ETH_HDR, TAG_HDR) && First(hs, k) == Some(1)
  {
    var hs := Push(p, ethType, k, tag).hdrs;
    assert hs == [hs[0]] + hs[1..];
    FirstBehind(hs[0], hs[1..], k);
  }

  lemma PushPopMplsIff(p: Packet, ethType: int)
    requires Tidy(p) && Editable(p) && TAG_HDR <= p.start && 0 <= ethType < 0x1_0000
    requires RoomForType(p, ethType)
    ensures Editable(PushMpls(p, ethType))
    ensures var r := PopMpls(PushMpls(p, ethType), U16(p.mem, TypeOff(p.mem, p.start)));
            && r.start == p.start && r.end == p.end && r.hdrs == p.hdrs
            && (Same(r, p) <==> Restorable(p.mem[p.start..], ethType))
  {
    var (t, ttl, bos) := OuterMpls(p);
    var tag := MplsBytes(t, ttl, bos);
    PushKeepsEditable(p, ethType, Mpls, tag);
    PushedFirst(p, ethType, Mpls, tag);
    PushPop(p, ethType, Mpls, tag, PushMpls(p, ethType).match_);
  }

  // ---- properly nested runs ---------------------------------------------------------------

  datatype Op = OpPushVlan(ethType: int) | OpPopVlan | OpPushMpls(ethType: int) | OpPopMpls(ethType: int)

  /** One tag operation; where the type field is out of reach the model leaves the packet alone. */
  function Apply(p: Packet, op: Op): Packet {
    if !Editable(p) then p
    else match op
      case OpPushVlan(e) => if 0 <= e < 0x1_0000 then PushVlan(p, e) else p
      case OpPopVlan => PopVlan(p)
      case OpPushMpls(e) => if 0 <= e < 0x1_0000 then PushMpls(p, e) else p
      case OpPopMpls(e) => if 0 <= e < 0x1_0000 then PopMpls(p, e) else p
  }

  function Exec(p: Packet, ops: seq<Op>): Packet
    decreases |ops|
  {
    if ops == [] then p else Exec(Apply(p, ops[0]), ops[1..])
  }

  lemma {:induction false} ExecConcat(p: Packet, a: seq<Op>, b: seq<Op>)
    ensures Exec(p, a + b) == Exec(Exec(p, a), b)
    decreases |a|
  {
    if a == [] {
      assert a + b == b;
    } else {
      assert (a + b)[1..] == a[1..] + b;
      ExecConcat(Apply(p, a[0]), a[1..], b);
    }
  }

  /** The balanced, properly nested operation sequences. */
  datatype Nest =
    | Empty
    | VlanScope(ethType: int, inner: Nest, rest: Nest)
    | MplsScope(ethType: int, inner: Nest, rest: Nest)

  /** The flat sequence; a pop_mpls is told the ethertype from before its push. */
  function Flatten(s: Nest, current: int): seq<Op> {
    match s
    case Empty => []
    case VlanScope(e, inner, rest) =>
      [OpPushVlan(e)] + Flatten(inner, e) + [OpPopVlan] + Flatten(rest, current)
    case MplsScope(e, inner, rest) =>
      [OpPushMpls(e)] + Flatten(inner, e) + [OpPopMpls(current)] + Flatten(rest, current)
  }

  /** The most tags in flight at any moment. */
  function Depth(s: Nest): nat {
    match s
    case Empty => 0
    case VlanScope(_, inner, rest) => if Depth(inner) + 1 > Depth(rest) then Depth(inner) + 1 else Depth(rest)
    case MplsScope(_, inner, rest) => if Depth(inner) + 1 > Depth(rest) then Depth(inner) + 1 else Depth(rest)
  }

  predicate EtherTypes(s: Nest) {
    match s
    case Empty => true
    case VlanScope(e, inner, rest) => MIN_ETHERTYPE <= e < 0x1_0000 && EtherTypes(inner) && EtherTypes(rest)
    case MplsScope(e, inner, rest) => MIN_ETHERTYPE <= e < 0x1_0000 && EtherTypes(inner) && EtherTypes(rest)
  }

  /** A tidy Ethernet II packet with the given ethertype. */
  predicate Plain(p: Packet, ethType: int) {
    Tidy(p) && U16(p.mem, p.start + 12) == ethType >= MIN_ETHERTYPE
  }

  lemma SameIsPlain(p: Packet, q: Packet, ethType: int)
    requires Plain(p, ethType) && Same(q, p)
    ensures Plain(q, ethType)
  {
    assert U16(q.mem[q.start..], 12) == U16(p.mem[p.start..], 12);
  }

  lemma SamePop(p: Packet, q: Packet, ethType: int)
    requires Tidy(p) && Same(q, p) && Editable(p) && Editable(q)
    requires |p.hdrs| > 1 && IsTag(p.hdrs[1].kind) && p.start + ETH_HDR + TAG_HDR <= p.end
    requires 0 <= ethType < 0x1_0000
    ensures Same(Pop(q, 1, ethType), Pop(p, 1, ethType))
  {
    SetTypeSuffix(p.mem, p.start, ethType);
    SetTypeSuffix(q.mem, q.start, ethType);
    RemoveTagSuffix(SetType(p.mem, p.start, ethType), p.start);
    RemoveTagSuffix(SetType(q.mem, q.start, ethType), q.start);
  }

  lemma SameTransitive(p: Packet, q: Packet, r: Packet)
    requires Same(p, q) && Same(q, r)
    ensures Same(p, r)
  {
  }

  /** Octets of the packet at a place in it. */
  lemma FieldAlike(p: Packet, q: Packet, i: nat)
    requires Same(q, p) && p.start + i + 2 <= |p.mem|
    ensures U16(q.mem, q.start + i) == U16(p.mem, p.start + i)
  {
    assert q.mem[q.start..][i] == p.mem[p.start..][i] && q.mem[q.start..][i + 1] == p.mem[p.start..][i + 1];
  }

  /** What opens a scope: an Ethernet II packet again, with the tag second in its list. */
  lemma ScopeOpened(p: Packet, current: int, ethType: int, k: Kind, tag: seq<byte>)
    requires Plain(p, current) && IsTag(k) && MIN_ETHERTYPE <= ethType < 0x1_0000 && |tag| == TAG_HDR <= p.start
    ensures Editable(p) && RoomForType(p, ethType)
    ensures var q := Push(p, ethType, k, tag);
            && Plain(q, ethType) && q.start == p.start - TAG_HDR && |q.hdrs| > 1 && First(q.hdrs, k) == Some(1)
            && q.hdrs[1] == Header(k, q.start + ETH_HDR, TAG_HDR)
  {
    PlainIs(p, current);
    hide Plain, Contiguous, TotalLen, WellFormed, Tidy, IsLlc, Editable;
    PushKeepsTidy(p, ethType, k, tag);
    PushOctets(p, ethType, k, tag);
    PushedFirst(p, ethType, k, tag);
    PlainIs(Push(p, ethType, k, tag), ethType);
  }

  lemma PlainWhateverMatch(p: Packet, q: Packet, ethType: int)
    requires Plain(p, ethType) && q == p.(match_ := q.match_)
    ensures Plain(q, ethType)
  {
    hide Contiguous, TotalLen;
  }

  lemma TidyIs(p: Packet)
    requires Tidy(p)
    ensures WellFormed(p) && p.hdrs != [] && p.start + ETH_HDR <= p.end <= |p.mem|
  {
    hide Contiguous, TotalLen;
  }

  lemma PlainIs(p: Packet, ethType: int)
    requires Tidy(p)
    ensures p.start + ETH_HDR <= p.end <= |p.mem|
    ensures Plain(p, ethType) <==> U16(p.mem, p.start + 12) == ethType && ethType >= MIN_ETHERTYPE
    ensures Plain(p, ethType) ==> Editable(p) && !IsLlc(p.mem, p.start) && p.hdrs != []
    ensures Plain(p, ethType) ==> TypeOff(p.mem, p.start) == p.start + 12 && 0 <= ethType < 0x1_0000
  {
    hide Contiguous, TotalLen;
  }

  /** A packet the same as an Ethernet II packet is one that can be edited. */
  lemma SameIsEditable(p: Packet, q: Packet, ethType: int)
    requires Plain(p, ethType) && Same(q, p)
    ensures Plain(q, ethType) && Editable(q) && Editable(p) && q.hdrs == p.hdrs
  {
    SameIsPlain(p, q, ethType);
    hide Plain, Contiguous, TotalLen, Same;
    PlainTidy(p, ethType);
    PlainTidy(q, ethType);
    PlainIs(p, ethType);
    PlainIs(q, ethType);
    SameList(p, q);
  }

  lemma PlainTidy(p: Packet, ethType: int)
    requires Plain(p, ethType)
    ensures Tidy(p)
  {
  }

  lemma SameList(p: Packet, q: Packet)
    requires Same(q, p)
    ensures q.hdrs == p.hdrs
  {
  }

  /** Packets that are the same stay so when their tag is popped. */
  lemma SamePopVlan(p: Packet, q: Packet, ethType: int)
    requires Plain(p, ethType) && Same(q, p) && |p.hdrs| > 1 && First(p.hdrs, Vlan) == Some(1)
    requires p.hdrs[1] == Header(Vlan, p.start + ETH_HDR, TAG_HDR)
    ensures Editable(p) && Editable(q) && Same(PopVlan(q), PopVlan(p))
  {
    hide Contiguous, TotalLen, RemoveTag, SetType, Push, IsLlc, TypeOff;
    SameIsEditable(p, q, ethType);
    TagFits(p, 1);
    FieldAlike(p, q, 16);
    SamePop(p, q, U16(p.mem, p.start + 16));
  }

  lemma VlanScopeRestores(p: Packet, current: int, ethType: int, q: Packet)
    requires Plain(p, current) && TAG_HDR <= p.start && MIN_ETHERTYPE <= ethType < 0x1_0000
    requires Same(q, PushVlan(p, ethType))
    ensures Plain(PushVlan(p, ethType), ethType) && PushVlan(p, ethType).start == p.start - TAG_HDR
    ensures Editable(q) && Same(PopVlan(q), p)
  {
    hide Contiguous, TotalLen, PopVlan, Push, Same, WellFormed, Tidy, Plain, VlanBytes, U16, TypeOff, Restorable;
    hide OuterVlan;
    PlainTidy(p, current);
    PlainIs(p, current);
    TidyIs(p);
    var tag := VlanBytes(OuterVlan(p), U16(p.mem, TypeOff(p.mem, p.start)));
    var r := PushVlan(p, ethType);
    ScopeOpened(p, current, ethType, Vlan, tag);
    PlainWhateverMatch(Push(p, ethType, Vlan, tag), r, ethType);
    PushPopVlanIff(p, ethType);
    PlainRestorable(p, current, ethType);
    SamePopVlan(r, q, ethType);
    SameTransitive(PopVlan(q), PopVlan(r), p);
  }

  lemma PlainRestorable(p: Packet, current: int, ethType: int)
    requires Plain(p, current) && MIN_ETHERTYPE <= ethType
    ensures p.start + ETH_HDR <= |p.mem| && TypeOff(p.mem[p.start..], 0) + 2 <= |p.mem[p.start..]|
    ensures Restorable(p.mem[p.start..], ethType)
  {
    hide Contiguous, TotalLen;
    assert U16(p.mem[p.start..], 12) == U16(p.mem, p.start + 12);
  }

  lemma MplsScopeRestores(p: Packet, current: int, ethType: int, q: Packet)
    requires Plain(p, current) && TAG_HDR <= p.start && MIN_ETHERTYPE <= ethType < 0x1_0000
    requires Same(q, PushMpls(p, ethType))
    ensures Plain(PushMpls(p, ethType), ethType) && PushMpls(p, ethType).start == p.start - TAG_HDR
    ensures Editable(q) && Same(PopMpls(q, current), p)
  {
    hide Contiguous, TotalLen, PopMpls, Push, Same, WellFormed, Tidy, Plain, MplsBytes, U16, TypeOff, Restorable;
    hide OuterMpls;
    PlainTidy(p, current);
    PlainIs(p, current);
    TidyIs(p);
    var (t, ttl, bos) := OuterMpls(p);
    var tag := MplsBytes(t, ttl, bos);
    var r := PushMpls(p, ethType);
    ScopeOpened(p, current, ethType, Mpls, tag);
    PlainWhateverMatch(Push(p, ethType, Mpls, tag), r, ethType);
    PushPopMplsIff(p, ethType);
    PlainRestorable(p, current, ethType);
    SamePopMpls(r, q, ethType, current);
    SameTransitive(PopMpls(q, current), PopMpls(r, current), p);
  }

  lemma SamePopMpls(p: Packet, q: Packet, ethType: int, uncovered: int)
    requires Plain(p, ethType) && Same(q, p) && |p.hdrs| > 1 && p.hdrs[1] == Header(Mpls, p.start + ETH_HDR, TAG_HDR)
    requires 0 <= uncovered < 0x1_0000
    ensures Editable(p) && Editable(q) && Same(PopMpls(q, uncovered), PopMpls(p, uncovered))
  {
    hide Contiguous, TotalLen, RemoveTag, SetType, Push, IsLlc, TypeOff;
    SameIsEditable(p, q, ethType);
    TagFits(p, 1);
    SamePop(p, q, uncovered);
  }

  lemma ExecScope(p: Packet, push: Op, a: seq<Op>, pop: Op, b: seq<Op>)
    ensures Exec(p, [push] + a + [pop] + b) == Exec(Apply(Exec(Apply(p, push), a), pop), b)
  {
    ExecConcat(p, [push] + a + [pop], b);
    ExecConcat(p, [push] + a, [pop]);
    ExecConcat(p, [push], a);
    ExecOne(p, push);
    ExecOne(Exec(Apply(p, push), a), pop);
  }

  lemma ExecOne(p: Packet, op: Op)
    ensures Exec(p, [op]) == Apply(p, op)
  {
    assert [op][1..] == [];
    assert Exec(Apply(p, op), []) == Apply(p, op);
  }

  lemma ApplyVlan(p: Packet, current: int, ethType: int, q: Packet)
    requires Plain(p, current) && TAG_HDR <= p.start && MIN_ETHERTYPE <= ethType < 0x1_0000
    requires Same(q, PushVlan(p, ethType))
    ensures Apply(p, OpPushVlan(ethType)) == PushVlan(p, ethType)
    ensures Same(Apply(q, OpPopVlan), p)
  {
    hide PushVlan, PopVlan, Contiguous, TotalLen;
    VlanScopeRestores(p, current, ethType, q);
  }

  lemma ApplyMpls(p: Packet, current: int, ethType: int, q: Packet)
    requires Plain(p, current) && TAG_HDR <= p.start && MIN_ETHERTYPE <= ethType < 0x1_0000
    requires Same(q, PushMpls(p, ethType))
    ensures Apply(p, OpPushMpls(ethType)) == PushMpls(p, ethType)
    ensures Same(Apply(q, OpPopMpls(current)), p)
  {
    hide PushMpls, PopMpls, Contiguous, TotalLen;
    MplsScopeRestores(p, current, ethType, q);
  }

  // ---- frames that have become 802.3 ---------------------------------------------------------

  /** Types are 16-bit values. */
  predicate TypesFit(s: Nest) {
    match s
    case Empty => true
    case VlanScope(e, inner, rest) => 0 <= e < 0x1_0000 && TypesFit(inner) && TypesFit(rest)
    case MplsScope(e, inner, rest) => 0 <= e < 0x1_0000 && TypesFit(inner) && TypesFit(rest)
  }

  /** The type field proper holds a length. */
  predicate Lengthy(p: Packet) {
    p.start + ETH_HDR <= |p.mem| && IsLlc(p.mem, p.start)
  }

  lemma PlainIsNotLengthy(p: Packet, q: Packet, ethType: int)
    requires Plain(p, ethType) && Lengthy(q)
    ensures !Same(q, p)
  {
    if Same(q, p) {
      SameIsPlain(p, q, ethType);
    }
  }

  /** A push moves the length along, wherever the frame now keeps its type. */
  lemma PushStaysLengthy(p: Packet, ethType: int, k: Kind, tag: seq<byte>)
    requires Editable(p) && p.hdrs != [] && 0 <= ethType < 0x1_0000 && |tag| == TAG_HDR
    requires Lengthy(p) || ethType < MIN_ETHERTYPE
    ensures Lengthy(Push(p, ethType, k, tag))
  {
    hide TotalLen;
    var m := SetType(p.mem, p.start, ethType);
    assert IsLlc(m, p.start);
    if TAG_HDR <= p.start {
      var n := InsertTag(m, p.start, tag);
      assert n[p.start + 8] == m[p.start + 12] && n[p.start + 9] == m[p.start + 13];
    }
  }

  lemma PopStaysLengthy(p: Packet, k: nat, ethType: int)
    requires Editable(p) && 0 < k < |p.hdrs| && IsTag(p.hdrs[k].kind) && p.start + ETH_HDR + TAG_HDR <= p.end
    requires 0 <= ethType < 0x1_0000 && Lengthy(p)
    ensures Lengthy(Pop(p, k, ethType))
  {
    hide TotalLen;
    var m := SetType(p.mem, p.start, ethType);
    var n := RemoveTag(m, p.start);
    assert n[p.start + 16] == m[p.start + 12] && n[p.start + 17] == m[p.start + 13];
  }

  lemma ApplyStaysLengthy(p: Packet, op: Op)
    requires Lengthy(p)
    ensures Lengthy(Apply(p, op))
  {
    hide Push, Pop, TotalLen, VlanBytes, MplsBytes, OuterVlan, OuterMpls, First, WellFormed, IsLlc;
    if Editable(p) && p.hdrs != [] {
      EditableIs(p);
      match op
      case OpPushVlan(e) =>
        if 0 <= e < 0x1_0000 {
          PushStaysLengthy(p, e, Vlan, VlanBytes(OuterVlan(p), U16(p.mem, TypeOff(p.mem, p.start))));
        }
      case OpPopVlan =>
        if First(p.hdrs, Vlan).Some? {
          var k := First(p.hdrs, Vlan).value;
          FirstIsBehind(p, k);
          PopStaysLengthy(p, k, U16(p.mem, p.hdrs[k].off + 2));
        }
      case OpPushMpls(e) =>
        if 0 <= e < 0x1_0000 {
          var (t, ttl, bos) := OuterMpls(p);
          PushStaysLengthy(p, e, Mpls, MplsBytes(t, ttl, bos));
        }
      case OpPopMpls(e) =>
        if 0 <= e < 0x1_0000 && |p.hdrs| > 1 && p.hdrs[1].kind == Mpls {
          TagFits(p, 1);
          PopStaysLengthy(p, 1, e);
        }
    } else if Editable(p) {
      NothingToPop(p);
    }
  }

  lemma EditableIs(p: Packet)
    requires Editable(p) && p.hdrs != []
    ensures WellFormed(p) && p.start + ETH_HDR <= |p.mem| && TypeOff(p.mem, p.start) + 2 <= |p.mem|
  {
    hide TotalLen;
  }

  lemma FirstIsBehind(p: Packet, k: nat)
    requires WellFormed(p) && First(p.hdrs, Vlan) == Some(k)
    ensures 0 < k < |p.hdrs| && p.hdrs[k].kind == Vlan && p.hdrs[k].off + TAG_HDR <= |p.mem|
    ensures p.start + ETH_HDR + TAG_HDR <= p.end
  {
    assert k > 0 ==> Sound(p.hdrs[k], p.end);
    TagFits(p, k);
  }

  lemma NothingToPop(p: Packet)
    requires p.hdrs == []
    ensures First(p.hdrs, Vlan) == None
  {
  }

  lemma {:induction false} ExecStaysLengthy(p: Packet, ops: seq<Op>)
    requires Lengthy(p)
    ensures Lengthy(Exec(p, ops))
    decreases |ops|
  {
    hide Apply, Lengthy;
    if ops != [] {
      ApplyStaysLengthy(p, ops[0]);
      ExecStaysLengthy(Apply(p, ops[0]), ops[1..]);
    }
  }

  /** Pushing a length onto an Ethernet II packet. */
  lemma ShortTypeIsLengthy(p: Packet, current: int, ethType: int)
    requires Plain(p, current) && 0 <= ethType < MIN_ETHERTYPE
    ensures Lengthy(Apply(p, OpPushVlan(ethType))) && Lengthy(Apply(p, OpPushMpls(ethType)))
  {
    hide Push, TotalLen, VlanBytes, MplsBytes, OuterVlan, OuterMpls, Contiguous, Lengthy, WellFormed;
    PlainTidy(p, current);
    PlainIs(p, current);
    PushStaysLengthy(p, ethType, Vlan, VlanBytes(OuterVlan(p), U16(p.mem, TypeOff(p.mem, p.start))));
    var (t, ttl, bos) := OuterMpls(p);
    PushStaysLengthy(p, ethType, Mpls, MplsBytes(t, ttl, bos));
    LengthyAlike(Push(p, ethType, Vlan, VlanBytes(OuterVlan(p), U16(p.mem, TypeOff(p.mem, p.start)))),
                 Apply(p, OpPushVlan(ethType)));
    LengthyAlike(Push(p, ethType, Mpls, MplsBytes(t, ttl, bos)), Apply(p, OpPushMpls(ethType)));
  }

  lemma LengthyAlike(p: Packet, q: Packet)
    requires Lengthy(p) && q.mem == p.mem && q.start == p.start
    ensures Lengthy(q)
  {
  }

  // ---- the runs ------------------------------------------------------------------------------

  /** A scope that does not restore what it found leaves a length, and so does all that follows. */
  lemma LengthyOnceAndForAll(q: Packet, pop: Op, b: seq<Op>)
    requires Lengthy(q)
    ensures Lengthy(Exec(Apply(q, pop), b))
  {
    hide Lengthy, Apply, Exec;
    ApplyStaysLengthy(q, pop);
    ExecStaysLengthy(Apply(q, pop), b);
  }

  lemma SameReflexive(p: Packet)
    requires p.start <= p.end <= |p.mem|
    ensures Same(p, p)
  {
  }

  /** A scope that opens with an ethertype. */
  lemma ScopeOpens(p: Packet, current: int, ethType: int)
    requires Plain(p, current) && TAG_HDR <= p.start && MIN_ETHERTYPE <= ethType < 0x1_0000
    ensures var r := Apply(p, OpPushVlan(ethType));
            && Plain(r, ethType) && r.start == p.start - TAG_HDR
            && forall q :: Same(q, r) ==> Same(Apply(q, OpPopVlan), p)
    ensures var r := Apply(p, OpPushMpls(ethType));
            && Plain(r, ethType) && r.start == p.start - TAG_HDR
            && forall q :: Same(q, r) ==> Same(Apply(q, OpPopMpls(current)), p)
  {
    PlainTidy(p, current);
    PlainIs(p, current);
    hide PushVlan, PopVlan, PushMpls, PopMpls, Contiguous, TotalLen, WellFormed, Plain, Same;
    var v, m := Apply(p, OpPushVlan(ethType)), Apply(p, OpPushMpls(ethType));
    assert v == PushVlan(p, ethType) && m == PushMpls(p, ethType);
    PushedInside(p, ethType);
    SameReflexive(v);
    VlanScopeRestores(p, current, ethType, v);
    SameReflexive(m);
    MplsScopeRestores(p, current, ethType, m);
    forall q | Same(q, v) ensures Same(Apply(q, OpPopVlan), p) {
      ApplyVlan(p, current, ethType, q);
    }
    forall q | Same(q, m) ensures Same(Apply(q, OpPopMpls(current)), p) {
      ApplyMpls(p, current, ethType, q);
    }
  }

  lemma PushedInside(p: Packet, ethType: int)
    requires Editable(p) && 0 <= ethType < 0x1_0000
    ensures var q := PushVlan(p, ethType); q.start <= q.end <= |q.mem|
    ensures var q := PushMpls(p, ethType); q.start <= q.end <= |q.mem|
  {
    hide TotalLen, VlanBytes, MplsBytes, OuterVlan, OuterMpls, SetType, InsertTag;
  }

  /** One scope, what is inside and what follows. */
  lemma ScopeOutcome(p: Packet, current: int, r: Packet, a: seq<Op>, pop: Op, b: seq<Op>, bad: bool)
    requires Plain(p, current)
    requires if bad then Lengthy(Exec(r, a)) else Same(Apply(Exec(r, a), pop), p)
    ensures bad ==> Lengthy(Exec(Apply(Exec(r, a), pop), b))
    ensures !bad ==> Plain(Apply(Exec(r, a), pop), current) && Apply(Exec(r, a), pop).start == p.start
  {
    hide Exec, Apply, Lengthy, Plain;
    if bad {
      LengthyOnceAndForAll(Exec(r, a), pop, b);
    } else {
      SameIsPlain(p, Apply(Exec(r, a), pop), current);
    }
  }

  /** Once a length has been pushed for a type, the frame is an 802.3 frame and stays one. */
  lemma {:induction false} NestedRunOutcome(p: Packet, s: Nest, current: int)
    requires Plain(p, current) && TypesFit(s)
    requires Depth(s) * TAG_HDR <= p.start
    ensures var q := Exec(p, Flatten(s, current)); if EtherTypes(s) then Same(q, p) else Lengthy(q)
    decreases s, 1
  {
    hide Plain, Same, Lengthy, Apply, Exec;
    match s
    case Empty => RunOfNothing(p, current);
    case VlanScope(e, _, _) => NestedScope(p, s, current, OpPushVlan(e), OpPopVlan);
    case MplsScope(e, _, _) => NestedScope(p, s, current, OpPushMpls(e), OpPopMpls(current));
  }

  lemma RunOfNothing(p: Packet, current: int)
    requires Plain(p, current)
    ensures Same(Exec(p, []), p)
  {
    hide Contiguous, TotalLen;
  }

  lemma {:induction false} NestedScope(p: Packet, s: Nest, current: int, push: Op, pop: Op)
    requires Plain(p, current) && TypesFit(s) && !s.Empty? && Depth(s) * TAG_HDR <= p.start
    requires (push, pop) ==
             if s.VlanScope? then (OpPushVlan(s.ethType), OpPopVlan)
             else (OpPushMpls(s.ethType), OpPopMpls(current))
    ensures var q := Exec(p, [push] + Flatten(s.inner, s.ethType) + [pop] + Flatten(s.rest, current));
            if EtherTypes(s) then Same(q, p) else Lengthy(q)
    decreases s, 0
  {
    hide Plain, Same, Lengthy, Apply, Exec;
    var e, inner, rest := s.ethType, s.inner, s.rest;
    var r, a, b := Apply(p, push), Flatten(inner, e), Flatten(rest, current);
    ExecScope(p, push, a, pop, b);
    if e < MIN_ETHERTYPE {
      ShortTypeIsLengthy(p, current, e);
      ExecStaysLengthy(r, a);
    } else {
      ScopeOpens(p, current, e);
      NestedRunOutcome(r, inner, e);
    }
    var bad := e < MIN_ETHERTYPE || !EtherTypes(inner);
    ScopeOutcome(p, current, r, a, pop, b, bad);
    if !bad {
      var v := Apply(Exec(r, a), pop);
      NestedRunOutcome(v, rest, current);
      if EtherTypes(rest) {
        SameTransitive(Exec(v, b), v, p);
      }
    }
  }

  /** A balanced, properly nested run of VLAN and MPLS pushes and pops on an Ethernet II packet, with no more
      tags in flight than the headroom has room for, gives back the packet's place, length, octets and
      frame list if and only if every type pushed is an ethertype. */
  lemma NestedRunRestoresIff(p: Packet, s: Nest, current: int)
    requires Plain(p, current) && TypesFit(s)
    requires Depth(s) * TAG_HDR <= p.start
    ensures Same(Exec(p, Flatten(s, current)), p) <==> EtherTypes(s)
  {
    hide Plain, Same, Lengthy, Exec, EtherTypes, Flatten;
    NestedRunOutcome(p, s, current);
    if !EtherTypes(s) {
      PlainIsNotLengthy(p, Exec(p, Flatten(s, current)), current);
    }
  }
}
