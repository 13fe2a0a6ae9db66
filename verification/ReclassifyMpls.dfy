/** Pushing and popping MPLS tags on Ethernet II frames: exactly when the frame list edited is still the one that a
    classification would give. */
module ReclassifyMpls {
  import opened Bytes
  import opened Wrappers
  import opened Headers
  import opened Tags
  import opened TagLaws
  import opened Reclassify
  import opened ReclassifyLlc

  // ---- the push -----------------------------------------------------------------------------------

  /** What a push of an MPLS tag onto an Ethernet II frame leaves at the places a new classification reads. */
  lemma PushMplsFacts(p: Packet, ethType: int)
    requires Tidy(p) && Editable(p) && TAG_HDR <= p.start && 0 <= ethType < 0x1_0000 && !IsLlc(p.mem, p.start)
    ensures var q := PushMpls(p, ethType);
            && q.start == p.start - TAG_HDR && q.end == p.end && q.stray == p.stray && |q.mem| == |p.mem|
            && q.hdrs == [Header(Ether, q.start, ETH_HDR)]
                         + ([Header(Mpls, q.start + ETH_HDR, TAG_HDR)] + p.hdrs[1..])
            && U16(q.mem, q.start + 12) == ethType && q.mem[q.start + 18..p.end] == p.mem[q.start + 18..p.end]
            && BottomOfStack(q.mem, q.start + ETH_HDR) == OuterMpls(p).2
  {
    hide InsertBytes, Contiguous, SetType, InsertTag, TotalLen, MplsBytes, MplsAt, OuterMpls, BottomOfStack, VlanAt;
    var (t, ttl, bos) := OuterMpls(p);
    var tag := MplsBytes(t, ttl, bos);
    PushOctets(p, ethType, Mpls, tag);
    PushedMemory(p.mem, p.start, p.end, PushMpls(p, ethType).mem, ethType, tag);
    SameOctets(PushMpls(p, ethType).mem, p.start - TAG_HDR + ETH_HDR, tag);
    MplsBytesRead(t, ttl, bos);
  }

  lemma OuterBottom(p: Packet)
    requires WellFormed(p)
    ensures OuterMpls(p).2 <==> Lacks(p.hdrs, Mpls)
  {
    hide MplsAt, TotalLen;
    if First(p.hdrs, Mpls).Some? {
      assert p.hdrs[First(p.hdrs, Mpls).value].kind == Mpls;
    }
  }

  /** Once past the tags, the parser lists no label any more. */
  lemma {:induction false} NoLabelsBehind(m: seq<byte>, k: Kind, off: nat, end: nat)
    requires k != Ether && k != Vlan && k != Mpls && off <= end <= |m|
    ensures Lacks(Parse(m, k, off, end), Mpls)
    decreases end - off
  {
    hide Parse, Next, Fits;
    ParseUnfolds(m, k, off, end);
    if Fits(m, k, off, end) && Next(m, k, off).Some? {
      NoTagNext(m, k, off);
      var next := Next(m, k, off).value;
      NoLabelsBehind(m, next, off + Size(k), end);
      var rest := Parse(m, next, off + Size(k), end);
      assert forall j :: 0 < j <= |rest| ==> ([Header(k, off, Extent(k, off, end))] + rest)[j] == rest[j - 1];
    }
  }

  lemma NoTagNext(m: seq<byte>, k: Kind, off: nat)
    requires k != Ether && k != Vlan && k != Mpls && off + Size(k) <= |m| && Next(m, k, off).Some?
    ensures var next := Next(m, k, off).value; next != Ether && next != Vlan && next != Mpls
  {
  }

  lemma EtherAndRest(e: Header, rest: seq<Header>)
    requires e.kind != Mpls
    ensures Lacks([e] + rest, Mpls) <==> Lacks(rest, Mpls)
    ensures |[e] + rest| > 1 <==> rest != []
    ensures rest != [] ==> ([e] + rest)[1] == rest[0]
  {
    var hs := [e] + rest;
    assert forall j :: 0 <= j < |rest| ==> hs[j + 1] == rest[j];
    if Lacks(rest, Mpls) {
      forall j | 0 <= j < |hs| ensures hs[j].kind != Mpls {
        assert j > 0 ==> hs[j] == rest[j - 1];
      }
    }
  }

  lemma SomeLabel(hs: seq<Header>)
    ensures hs != [] && hs[0].kind == Mpls ==> !Lacks(hs, Mpls)
    ensures Lacks([], Mpls)
  {
  }

  /** What the tags of a classified packet are, by what its type announces. */
  lemma LabelsAnnounced(p: Packet, k: Kind)
    requires p.start + ETH_HDR <= p.end <= |p.mem| && k != Ether
    requires p.hdrs == [Header(Ether, p.start, ETH_HDR)] + Parse(p.mem, k, p.start + ETH_HDR, p.end)
    ensures !Lacks(p.hdrs, Mpls) ==> (k == Vlan || k == Mpls) && Fits(p.mem, k, p.start + ETH_HDR, p.end)
    ensures |p.hdrs| > 1 <==> Fits(p.mem, k, p.start + ETH_HDR, p.end)
    ensures |p.hdrs| > 1 ==> p.hdrs[1].kind == k
    ensures |p.hdrs| > 1 && k == Mpls ==> !Lacks(p.hdrs, Mpls)
  {
    hide Parse, Fits, Lacks, Agrees;
    var rest := Parse(p.mem, k, p.start + ETH_HDR, p.end);
    ParseStarts(p.mem, k, p.start + ETH_HDR, p.end);
    EtherAndRest(Header(Ether, p.start, ETH_HDR), rest);
    SomeLabel(rest);
    if k != Vlan && k != Mpls {
      NoLabelsBehind(p.mem, k, p.start + ETH_HDR, p.end);
    }
  }

  /** On an Ethernet II packet the list after push_mpls is the classification if and only if the packet had no label
      and nothing behind its Ethernet header that the classifier knows, or had one right behind it: the code takes
      over what was listed behind the tag, where the classifier sees payload behind the last label. */
  lemma PushMplsAgreesIff(p: Packet, ethType: int)
    requires Agrees(p) && p.hdrs != [] && TAG_HDR <= p.start && !IsLlc(p.mem, p.start) && IsMplsType(ethType)
    ensures Editable(p) && p.start + 14 <= p.end <= |p.mem|
    ensures Agrees(PushMpls(p, ethType)) <==>
            if Lacks(p.hdrs, Mpls) then p.start + 14 == p.end || LayerOfType(U16(p.mem, p.start + 12)) == Payload
            else |p.hdrs| > 1 && p.hdrs[1].kind == Mpls
  {
    hide Parse, PushMpls, Contiguous, TotalLen, Lacks, OuterMpls, BottomOfStack, Fits, LayerOfType;
    AgreesIsTidy(p);
    OuterBottom(p);
    PushMplsFacts(p, ethType);
    var k := LayerOfType(U16(p.mem, p.start + 12));
    EtherClassified(p, k);
    LabelsAnnounced(p, k);
    PushedLabelAgreesIff(p, PushMpls(p, ethType), ethType, k);
  }

  lemma PushedLabelAgreesIff(p: Packet, q: Packet, ethType: int, k: Kind)
    requires k != Ether && IsMplsType(ethType) && p.start + 14 <= p.end <= |p.mem| == |q.mem| && TAG_HDR <= p.start
    requires q.start == p.start - TAG_HDR && q.end == p.end && U16(q.mem, q.start + 12) == ethType
    requires q.hdrs == [Header(Ether, q.start, ETH_HDR)]
                       + ([Header(Mpls, q.start + ETH_HDR, TAG_HDR)] + Parse(p.mem, k, p.start + 14, p.end))
    requires q.mem[q.start + 18..p.end] == p.mem[q.start + 18..p.end]
    ensures Agrees(q) <==>
            if BottomOfStack(q.mem, q.start + ETH_HDR) then p.start + 14 == p.end || k == Payload
            else k == Mpls || (!Fits(p.mem, k, p.start + 14, p.end) && !Fits(q.mem, Mpls, p.start + 14, p.end))
  {
    hide Parse, Fits, Classify;
    var off := p.start + ETH_HDR;
    assert LayerOfType(ethType) == Mpls && EthType(q.mem, q.start, q.end, q.stray) == ethType;
    ClassifyIs(q.mem, q.start, q.end, q.stray, Mpls);
    ParseMpls(q.mem, off - TAG_HDR, p.end);
    var e, h := Header(Ether, q.start, ETH_HDR), Header(Mpls, q.start + ETH_HDR, TAG_HDR);
    var below := Below(q.mem, off - TAG_HDR);
    SameTail(e, [h] + Parse(p.mem, k, off, p.end), [h] + Parse(q.mem, below, off, p.end));
    SameTail(h, Parse(p.mem, k, off, p.end), Parse(q.mem, below, off, p.end));
    ParseDependsOnTail(q.mem, p.mem, k, off, p.end);
    ParseAsPayload(q.mem, k, off, p.end);
    if k != Mpls {
      KindsDiffer(p.mem, k, q.mem, Mpls, off, p.end);
    }
  }

  // ---- the pop ------------------------------------------------------------------------------------

  /** What a pop of a label behind an Ethernet II header leaves at the places a new classification reads. */
  lemma PopMplsFacts(p: Packet, ethType: int)
    requires Tidy(p) && |p.hdrs| > 1 && p.hdrs[1].kind == Mpls && !IsLlc(p.mem, p.start) && 0 <= ethType < 0x1_0000
    ensures Editable(p) && p.start + 18 <= p.end <= |p.mem| && p.hdrs[1] == Header(Mpls, p.start + ETH_HDR, TAG_HDR)
    ensures var q := PopMpls(p, ethType);
            var off := p.start + 18;
            && q.start == p.start + TAG_HDR && q.end == p.end && q.stray == p.stray && |q.mem| == |p.mem|
            && q.hdrs == [Header(Ether, q.start, ETH_HDR)] + p.hdrs[2..]
            && U16(q.mem, q.start + 12) == ethType && q.mem[off..] == p.mem[off..]
  {
    hide TotalLen, RemoveTag, Sound;
    LabelPlaced(p);
    var off := p.start + 18;
    var q := PopMpls(p, ethType);
    var m := SetType(p.mem, p.start, ethType);
    RemoveTagSuffix(m, p.start);
    PopKeepsTidy(p, ethType);
    assert q.hdrs == [q.hdrs[0]] + q.hdrs[1..];
    assert m[off..] == p.mem[off..];
    Shifted(m, p.start, 12);
    Shifted(q.mem, q.start, 12);
    RemovedBytes(m[p.start..]);
  }

  lemma LabelPlaced(p: Packet)
    requires Tidy(p) && |p.hdrs| > 1 && p.hdrs[1].kind == Mpls
    ensures p.start + 18 <= p.end <= |p.mem| && p.hdrs[1] == Header(Mpls, p.start + ETH_HDR, TAG_HDR)
  {
    assert Sound(p.hdrs[1], p.end);
    ContiguousOrder(p.hdrs, p.start, p.end, 0, 1);
  }

  lemma LabelAnnounced(p: Packet)
    requires Agrees(p) && p.start + 18 <= p.end && !IsLlc(p.mem, p.start)
    requires |p.hdrs| > 1 && p.hdrs[1] == Header(Mpls, p.start + ETH_HDR, TAG_HDR)
    ensures p.end <= |p.mem| && p.hdrs[2..] == Parse(p.mem, Below(p.mem, p.start + 14), p.start + 18, p.end)
  {
    hide Parse, Classify, Fits, LayerOfType;
    var k := LayerOfType(U16(p.mem, p.start + 12));
    EtherClassified(p, k);
    LabelsAnnounced(p, k);
    ParseMpls(p.mem, p.start + ETH_HDR, p.end);
    DropTwo(p.hdrs[0], p.hdrs[1], Parse(p.mem, Below(p.mem, p.start + 14), p.start + 18, p.end));
  }

  /** On an Ethernet II packet the list after pop_mpls is the classification if and only if the type that is given
      announces what was listed behind the label, payload behind the bottom of the stack and a label otherwise, or
      neither has room. A length given for a type has the frame read as an LLC frame. */
  lemma PopMplsAgreesIff(p: Packet, ethType: int)
    requires Agrees(p) && |p.hdrs| > 1 && p.hdrs[1].kind == Mpls && !IsLlc(p.mem, p.start) && 0 <= ethType < 0x1_0000
    ensures Editable(p) && p.start + 18 <= p.end <= |p.mem|
    ensures var off := p.start + 18;
            var listed := if p.mem[p.start + 16] % 2 == 1 then Payload else Mpls;
            var read := LayerOfType(if ethType >= MIN_ETHERTYPE then ethType else TypeBehindTag(p));
            Agrees(PopMpls(p, ethType)) <==>
              listed == read || (!Fits(p.mem, listed, off, p.end) && !Fits(p.mem, read, off, p.end))
  {
    hide Parse, Classify, PopMpls, Contiguous, TotalLen, Fits, LayerOfType, WellFormed;
    AgreesIsTidy(p);
    PopMplsFacts(p, ethType);
    LabelAnnounced(p);
    var q := PopMpls(p, ethType);
    var off := p.start + 18;
    var listed := Below(p.mem, p.start + 14);
    PoppedType(p, q, ethType);
    var read := LayerOfType(TypeOf(q));
    ClassifyIs(q.mem, q.start, q.end, q.stray, read);
    assert q.mem[off..p.end] == q.mem[off..][..p.end - off] == p.mem[off..p.end];
    ParseDependsOnTail(q.mem, p.mem, read, off, p.end);
    SameTail(Header(Ether, q.start, ETH_HDR), Parse(p.mem, listed, off, p.end), Parse(p.mem, read, off, p.end));
    if listed != read {
      KindsDiffer(p.mem, listed, p.mem, read, off, p.end);
    }
  }

  lemma PoppedType(p: Packet, q: Packet, ethType: int)
    requires p.start + 18 <= p.end <= |p.mem| == |q.mem|
    requires q.start == p.start + 4 && q.end == p.end && q.stray == p.stray
    requires U16(q.mem, q.start + 12) == ethType && q.mem[p.start + 18..] == p.mem[p.start + 18..]
    ensures TypeOf(q) == if ethType >= MIN_ETHERTYPE then ethType else TypeBehindTag(p)
  {
    if p.start + 26 <= p.end {
      Shifted(q.mem, p.start + 18, 6);
      Shifted(p.mem, p.start + 18, 6);
    }
  }
}
