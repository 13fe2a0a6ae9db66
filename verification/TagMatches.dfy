/** What a pop takes out of the packet and what it leaves in the match; and when the match that pushes and pops
    edit still says what a new classification would say. */
module TagMatches {
  import opened Bytes
  import opened Wrappers
  import opened Headers
  import opened Tags
  import opened TagLaws
  import opened Reclassify

  // ---- what is popped ---------------------------------------------------------------------------

  /** q is p without frame k and without the four octets behind the Ethernet header, t its type from now on. */
  predicate TakenOut(p: Packet, k: nat, t: int, q: Packet) {
    && 0 < k < |p.hdrs| && p.start + 18 <= |p.mem| == |q.mem| && 0 <= t
    && q.start == p.start + 4 && q.end == p.end && q.stray == p.stray
    && q.hdrs == [Header(Ether, q.start, 14)] + p.hdrs[1..k] + p.hdrs[k + 1..]
    && q.mem[q.start..q.start + 12] == p.mem[p.start..p.start + 12]
    && (if p.mem[p.start + 12] >= 6 then
          && q.mem[q.start + 12] as int * 0x100 + q.mem[q.start + 13] == t
          && (forall i :: q.start + 14 <= i < |q.mem| ==> q.mem[i] == p.mem[i])
        else
          && q.mem[q.start + 12] == p.mem[p.start + 12] && q.mem[q.start + 13] == p.mem[p.start + 13]
          && q.start + 18 <= |q.mem| && q.mem[q.start + 16] as int * 0x100 + q.mem[q.start + 17] == t
          && (forall i :: q.start + 14 <= i < |q.mem| && i != q.start + 16 && i != q.start + 17 ==>
                q.mem[i] == p.mem[i]))
  }

  lemma RemovedOctets(m: seq<byte>, s: nat)
    requires s + 18 <= |m|
    ensures var r := RemoveTag(m, s);
            && r[s + 4..s + 16] == m[s..s + 12] && r[s + 16] == m[s + 12] && r[s + 17] == m[s + 13]
            && forall i :: s + 18 <= i < |m| ==> r[i] == m[i]
  {
    var r := RemoveTag(m, s);
    assert forall i {:trigger r[i]} :: s + 4 <= i < s + 18 ==> r[i] == m[i - 4];
  }

  lemma SetOctets(m: seq<byte>, s: nat, t: int)
    requires s + ETH_HDR <= |m| && TypeOff(m, s) + 2 <= |m| && 0 <= t < 0x1_0000
    ensures var r := SetType(m, s, t); var o := if m[s + 12] >= 6 then s + 12 else s + 20;
            && o == TypeOff(m, s) && r[o] as int * 0x100 + r[o + 1] == t && r[s..s + 12] == m[s..s + 12]
            && forall i :: 0 <= i < |m| && i != o && i != o + 1 ==> r[i] == m[i]
  {
  }

  lemma PopTakesOut(p: Packet, k: nat, t: int)
    requires Editable(p) && 0 < k < |p.hdrs| && IsTag(p.hdrs[k].kind) && p.start + 18 <= p.end && 0 <= t < 0x1_0000
    ensures TakenOut(p, k, t, Pop(p, k, t))
  {
    hide TotalLen, SetType, RemoveTag, TypeOff;
    EditableIs(p);
    RemovedOctets(SetType(p.mem, p.start, t), p.start);
    SetOctets(p.mem, p.start, t);
    assert p.hdrs[1..][..k - 1] == p.hdrs[1..k] && p.hdrs[1..][k..] == p.hdrs[k + 1..];
  }

  /** The match says nothing more of tags of this kind, and for a type what the frame holds now. */
  predicate Forgets(p: Packet, kind: Kind, q: Packet) {
    && (if kind == Vlan then q.match_.vlan == None && q.match_.mpls == p.match_.mpls
        else q.match_.mpls == None && q.match_.vlan == p.match_.vlan)
    && q.start + 14 <= q.end <= |q.mem|
    && q.match_.ethType == Some(TypeIn(q.mem, q.start, q.end, q.stray))
  }

  /** The type that the octets of a frame hold. */
  function TypeIn(m: seq<byte>, start: nat, end: nat, stray: int): int
    requires start + 14 <= end <= |m|
  {
    if m[start + 12] >= 6 then m[start + 12] as int * 0x100 + m[start + 13]
    else if start + 22 <= end then m[start + 20] as int * 0x100 + m[start + 21] else stray
  }

  lemma TypeInIs(q: Packet)
    requires q.start + 14 <= q.end <= |q.mem|
    ensures TypeOf(q) == TypeIn(q.mem, q.start, q.end, q.stray)
  {
  }

  /** pop_vlan takes out the outermost VLAN tag's frame, and gives its type to the Ethernet frame; without a VLAN tag
      it does nothing. */
  lemma PopVlanTakes(p: Packet)
    requires Editable(p)
    ensures forall k: nat :: Outermost(p.hdrs, k, Vlan) ==>
              && p.hdrs[k].off + 4 <= |p.mem|
              && TakenOut(p, k, p.mem[p.hdrs[k].off + 2] as int * 0x100 + p.mem[p.hdrs[k].off + 3], PopVlan(p))
              && Forgets(p, Vlan, PopVlan(p))
    ensures Lacks(p.hdrs, Vlan) ==> PopVlan(p) == p
  {
    hide TakenOut, TotalLen, Forgets;
    forall k: nat | Outermost(p.hdrs, k, Vlan)
      ensures p.hdrs[k].off + 4 <= |p.mem| && Forgets(p, Vlan, PopVlan(p))
      ensures TakenOut(p, k, p.mem[p.hdrs[k].off + 2] as int * 0x100 + p.mem[p.hdrs[k].off + 3], PopVlan(p))
    {
      PopVlanTakesAt(p, k);
    }
  }

  lemma PopVlanTakesAt(p: Packet, k: nat)
    requires Editable(p) && Outermost(p.hdrs, k, Vlan)
    ensures p.hdrs[k].off + 4 <= |p.mem| && Forgets(p, Vlan, PopVlan(p))
    ensures TakenOut(p, k, p.mem[p.hdrs[k].off + 2] as int * 0x100 + p.mem[p.hdrs[k].off + 3], PopVlan(p))
  {
    hide TotalLen, Without, RemoveTag, SetType, TypeIn, EthType;
    FirstIsOutermost(p.hdrs, k, Vlan);
    FirstIsBehind(p, k);
    var t := U16(p.mem, p.hdrs[k].off + 2);
    PopTakesOut(p, k, t);
    var q := Pop(p, k, t);
    TypeInIs(q);
    assert PopVlan(p) == q.(match_ := p.match_.(vlan := None, ethType := Some(TypeOf(q))));
  }

  /** pop_mpls takes out an MPLS tag that stands second in the list, and gives the type it is told to the Ethernet
      frame; otherwise it does nothing. */
  lemma PopMplsTakes(p: Packet, ethType: int)
    requires Editable(p) && 0 <= ethType < 0x1_0000
    ensures if |p.hdrs| > 1 && p.hdrs[1].kind == Mpls
            then TakenOut(p, 1, ethType, PopMpls(p, ethType)) && Forgets(p, Mpls, PopMpls(p, ethType))
            else PopMpls(p, ethType) == p
  {
    hide TotalLen, Without, RemoveTag, SetType, TypeIn, EthType;
    if |p.hdrs| > 1 && p.hdrs[1].kind == Mpls {
      TagFits(p, 1);
      PopTakesOut(p, 1, ethType);
      var q := Pop(p, 1, ethType);
      TypeInIs(q);
      assert PopMpls(p, ethType) == q.(match_ := p.match_.(mpls := None, ethType := Some(TypeOf(q))));
    }
  }

  // ---- what is pushed -----------------------------------------------------------------------------

  /** q is p with a tag of these octets behind the Ethernet header, t its type from now on. */
  predicate PutIn(p: Packet, k: Kind, tag: seq<byte>, t: int, q: Packet) {
    && 4 <= p.start <= p.start + 14 <= |p.mem| == |q.mem| && p.hdrs != [] && |tag| == 4
    && q.start == p.start - 4 && q.end == p.end && q.stray == p.stray
    && q.hdrs == [Header(Ether, q.start, 14), Header(k, q.start + 14, 4)] + p.hdrs[1..]
    && q.mem[q.start..q.start + 12] == p.mem[p.start..p.start + 12] && q.mem[q.start + 14..q.start + 18] == tag
    && (if p.mem[p.start + 12] >= 6 then
          && q.mem[q.start + 12] as int * 0x100 + q.mem[q.start + 13] == t
          && (forall i :: p.start + 14 <= i < |q.mem| ==> q.mem[i] == p.mem[i])
        else
          && q.mem[q.start + 12] == p.mem[p.start + 12] && q.mem[q.start + 13] == p.mem[p.start + 13]
          && p.start + 22 <= |q.mem| && q.mem[p.start + 20] as int * 0x100 + q.mem[p.start + 21] == t
          && (forall i :: p.start + 14 <= i < |q.mem| && i != p.start + 20 && i != p.start + 21 ==>
                q.mem[i] == p.mem[i]))
  }

  lemma InsertedOctets(m: seq<byte>, s: nat, tag: seq<byte>)
    requires |tag| == 4 <= s && s + 14 <= |m|
    ensures var r := InsertTag(m, s, tag);
            && r[s - 4..s + 8] == m[s..s + 12] && r[s + 8] == m[s + 12] && r[s + 9] == m[s + 13]
            && r[s + 10..s + 14] == tag && forall i :: s + 14 <= i < |m| ==> r[i] == m[i]
  {
    var r := InsertTag(m, s, tag);
    assert forall i {:trigger r[i]} :: s - 4 <= i < s + 10 ==> r[i] == m[i + 4];
  }

  lemma PushPutsIn(p: Packet, k: Kind, tag: seq<byte>, t: int)
    requires Editable(p) && p.hdrs != [] && 4 <= p.start && |tag| == 4 && 0 <= t < 0x1_0000
    ensures PutIn(p, k, tag, t, Push(p, t, k, tag))
  {
    hide TotalLen, SetType, InsertTag, TypeOff;
    EditableIs(p);
    InsertedOctets(SetType(p.mem, p.start, t), p.start, tag);
    SetOctets(p.mem, p.start, t);
  }

  /** A push that finds headroom puts a tag in behind the Ethernet header and gives that the type pushed; without
      headroom it has only written the type, and without an Ethernet frame nothing. */
  lemma PushesPut(p: Packet, t: int)
    requires Editable(p) && 0 <= t < 0x1_0000
    ensures p.hdrs == [] ==> PushVlan(p, t) == p && PushMpls(p, t) == p
    ensures p.hdrs != [] && p.start < 4 ==>
              PushVlan(p, t) == PushMpls(p, t) == p.(mem := SetType(p.mem, p.start, t))
    ensures p.hdrs != [] && 4 <= p.start ==>
              && (exists tag: seq<byte> :: PutIn(p, Vlan, tag, t, PushVlan(p, t)))
              && (exists tag: seq<byte> :: PutIn(p, Mpls, tag, t, PushMpls(p, t)))
  {
    hide TotalLen, InsertTag, SetType, VlanBytes, MplsBytes, OuterVlan, OuterMpls, EthType, TypeOff;
    if p.hdrs != [] && 4 <= p.start {
      EditableIs(p);
      var vlan := VlanBytes(OuterVlan(p), U16(p.mem, TypeOff(p.mem, p.start)));
      var (t0, ttl, bos) := OuterMpls(p);
      var mpls := MplsBytes(t0, ttl, bos);
      PushPutsIn(p, Vlan, vlan, t);
      PushPutsIn(p, Mpls, mpls, t);
      assert PutIn(p, Vlan, vlan, t, PushVlan(p, t)) && PutIn(p, Mpls, mpls, t, PushMpls(p, t));
    }
  }

  // ---- whether the match is right ---------------------------------------------------------------

  /** What a new classification would write into the match. */
  function Fresh(p: Packet): Match
    requires p.start + ETH_HDR <= p.end <= |p.mem|
  {
    var t := TypeOf(p);
    ClassifiedMatch(p.mem, p.start, p.end, p.stray, t);
    NoteAll(p.mem, EMPTY_MATCH.(ethType := Some(t)), Classify(p.mem, p.start, p.end, p.stray))
  }

  /** Type, VLAN and MPLS fields of the match are those of a new classification. */
  predicate Tells(p: Packet) {
    && p.start + ETH_HDR <= p.end <= |p.mem|
    && p.match_.ethType == Fresh(p).ethType && p.match_.vlan == Fresh(p).vlan && p.match_.mpls == Fresh(p).mpls
  }

  /** Type and MPLS fields do not depend on what is known of VLAN tags; an id once known stays. */
  lemma {:induction false} NotedAlike(m: seq<byte>, f: Match, g: Match, hs: seq<Header>)
    requires TagsInside(m, hs) && f.ethType == g.ethType && f.mpls == g.mpls && f.mplsPresent == g.mplsPresent
    ensures var a, b := NoteAll(m, f, hs), NoteAll(m, g, hs); a.ethType == b.ethType && a.mpls == b.mpls
    ensures g.vlanPresent ==> NoteAll(m, g, hs).vlan == g.vlan
    decreases |hs|
  {
    hide VlanAt, MplsAt;
    if hs != [] {
      NotedAlike(m, Note(m, f, hs[0]), Note(m, g, hs[0]), hs[1..]);
    }
  }

  lemma {:induction false} NotedFromTail(m: seq<byte>, n: seq<byte>, f: Match, hs: seq<Header>, from: nat)
    requires TagsInside(m, hs) && |m| == |n| && forall i :: from <= i < |m| ==> m[i] == n[i]
    requires forall i :: 0 <= i < |hs| ==> from <= hs[i].off
    ensures NoteAll(m, f, hs) == NoteAll(n, f, hs)
    decreases |hs|
  {
    if hs != [] {
      NotedFromTail(m, n, Note(m, f, hs[0]), hs[1..], from);
    }
  }

  /** The Ethernet frame and a VLAN tag, noted. */
  lemma NotedTwo(m: seq<byte>, f: Match, e: Header, v: Header, rest: seq<Header>)
    requires e.kind == Ether && TagsInside(m, [e] + rest) && TagsInside(m, [e] + ([v] + rest))
    ensures TagsInside(m, rest) && NoteAll(m, f, [e] + rest) == NoteAll(m, f, rest)
    ensures (IsTag(v.kind) ==> v.off + TAG_HDR <= |m|)
            && NoteAll(m, f, [e] + ([v] + rest)) == NoteAll(m, Note(m, f, v), rest)
  {
    var hs, gs := [e] + rest, [e] + ([v] + rest);
    assert hs[1..] == rest && gs[1..] == [v] + rest && gs[1..][1..] == rest;
    assert gs[1] == v;
    assert TagsInside(m, rest) by {
      forall i | 0 <= i < |rest| && IsTag(rest[i].kind) ensures rest[i].off + TAG_HDR <= |m| {
        assert hs[i + 1] == rest[i];
      }
    }
  }

  /** Two packets with the same octets behind their tags, of which the second has one VLAN tag more: its match, new,
      is the other's but for that tag, which it puts first. */
  lemma OneTagMore(p: Packet, q: Packet, v: Header)
    requires Agrees(p) && Agrees(q) && p.hdrs != [] && q.hdrs != [] && |p.mem| == |q.mem|
    requires q.hdrs == [q.hdrs[0]] + ([v] + p.hdrs[1..]) && v.kind == Vlan && v.off + 4 == p.start + 14
    requires v.off + 4 <= |q.mem|
    requires p.start + 14 <= p.end && U16(q.mem, v.off + 2) == TypeOf(p)
    requires q.start + 14 <= q.end <= |q.mem| && forall i :: p.start + 14 <= i < |p.mem| ==> q.mem[i] == p.mem[i]
    ensures Fresh(q).ethType == Fresh(p).ethType && Fresh(q).mpls == Fresh(p).mpls
    ensures Fresh(q).vlan == Some(VlanAt(q.mem, v.off))
    ensures Fresh(p).vlan == None <==> Lacks(p.hdrs[1..], Vlan)
    ensures Lacks(p.hdrs[1..], Vlan) ==> Fresh(p).ethType == Some(TypeOf(p))
  {
    hide Parse, Classify, EthType, VlanAt, MplsAt, NoteAll, Note, First, Contiguous;
    ListOf(p);
    ListOf(q);
    ClassifiedMatch(p.mem, p.start, p.end, p.stray, TypeOf(p));
    ClassifiedMatch(q.mem, q.start, q.end, q.stray, TypeOf(q));
    var rest := p.hdrs[1..];
    assert p.hdrs == [p.hdrs[0]] + rest;
    var f, g := EMPTY_MATCH.(ethType := Some(TypeOf(p))), EMPTY_MATCH.(ethType := Some(TypeOf(q)));
    TagsBehind(q.mem, p.hdrs[0], q.hdrs[0], v, rest);
    NotedTwo(q.mem, g, q.hdrs[0], v, rest);
    NotedOne(p.mem, f, p.hdrs[0], rest);
    NotedFromTail(p.mem, q.mem, f, rest, p.start + 14);
    VlanNoted(q.mem, g, v);
    NotedAlike(q.mem, f, Note(q.mem, g, v), rest);
    NotedPlainly(p.mem, f, rest);
  }

  lemma VlanNoted(m: seq<byte>, g: Match, v: Header)
    requires v.kind == Vlan && v.off + 4 <= |m| && !g.vlanPresent
    ensures var n := Note(m, g, v);
            && n.ethType == Some(U16(m, v.off + 2)) && n.vlan == Some(VlanAt(m, v.off)) && n.vlanPresent
            && n.mpls == g.mpls && n.mplsPresent == g.mplsPresent
  {
  }

  lemma NotedOne(m: seq<byte>, f: Match, e: Header, rest: seq<Header>)
    requires e.kind == Ether && TagsInside(m, [e] + rest)
    ensures TagsInside(m, rest) && NoteAll(m, f, [e] + rest) == NoteAll(m, f, rest)
  {
    var hs := [e] + rest;
    assert hs[1..] == rest;
    forall i | 0 <= i < |rest| && IsTag(rest[i].kind) ensures rest[i].off + TAG_HDR <= |m| {
      assert hs[i + 1] == rest[i];
    }
  }

  lemma TagsBehind(m: seq<byte>, e: Header, d: Header, v: Header, rest: seq<Header>)
    requires e.kind == Ether && TagsInside(m, [d] + ([v] + rest))
    ensures TagsInside(m, [d] + rest) && TagsInside(m, [e] + rest)
  {
    var gs := [d] + ([v] + rest);
    assert gs[0] == d && forall i :: 0 <= i < |rest| ==> gs[i + 2] == rest[i];
  }

  /** The list of a classified packet: the Ethernet frame first, the others behind it. */
  lemma ListOf(p: Packet)
    requires Agrees(p) && p.hdrs != []
    ensures p.start + ETH_HDR <= p.end <= |p.mem| && p.hdrs[0] == Header(Ether, p.start, ETH_HDR)
    ensures forall i :: 0 <= i < |p.hdrs[1..]| ==> p.start + 14 <= p.hdrs[1..][i].off
  {
    hide Classify, Contiguous;
    ClassifyTiles(p.mem, p.start, p.end, p.stray);
    ClassifyContiguous(p.mem, p.start, p.end, p.stray);
    forall i | 0 <= i < |p.hdrs[1..]| ensures p.start + 14 <= p.hdrs[1..][i].off {
      assert p.hdrs[1..][i] == p.hdrs[i + 1];
      ContiguousOrder(p.hdrs, p.start, p.end, 0, i + 1);
    }
  }

  /** A list without VLAN tags leaves type and VLAN fields alone; one with them writes a VLAN field. */
  lemma {:induction false} NotedPlainly(m: seq<byte>, f: Match, hs: seq<Header>)
    requires TagsInside(m, hs) && !f.vlanPresent && f.vlan == None
    ensures NoteAll(m, f, hs).vlan == None <==> Lacks(hs, Vlan)
    ensures Lacks(hs, Vlan) ==> NoteAll(m, f, hs).ethType == f.ethType
    decreases |hs|
  {
    hide VlanAt, MplsAt;
    if hs != [] {
      var rest := hs[1..];
      assert Lacks(hs, Vlan) <==> hs[0].kind != Vlan && Lacks(rest, Vlan) by {
        if hs[0].kind != Vlan && Lacks(rest, Vlan) {
          forall j | 0 <= j < |hs| ensures hs[j].kind != Vlan {
            assert j > 0 ==> hs[j] == rest[j - 1];
          }
        }
        if Lacks(hs, Vlan) {
          forall j | 0 <= j < |rest| ensures rest[j].kind != Vlan {
            assert rest[j] == hs[j + 1];
          }
        }
      }
      if hs[0].kind == Vlan {
        NotedAlike(m, Note(m, f, hs[0]), Note(m, f, hs[0]), rest);
      } else {
        NotedPlainly(m, Note(m, f, hs[0]), rest);
      }
    }
  }

  /** On an Ethernet II packet, push_vlan with a VLAN ethertype keeps the match right, however many tags there are. */
  lemma PushVlanTells(p: Packet, ethType: int)
    requires Agrees(p) && p.hdrs != [] && TAG_HDR <= p.start && Tells(p)
    requires !IsLlc(p.mem, p.start) && IsVlanType(ethType)
    ensures Editable(p) && Tells(PushVlan(p, ethType))
  {
    hide Parse, Contiguous, VlanAt, NoteAll, OuterVlan, VlanBytes, Fresh, Classify;
    AgreesIsTidy(p);
    PushVlanAgrees(p, ethType);
    PushVlanFacts(p, ethType);
    var q := PushVlan(p, ethType);
    var v := Header(Vlan, p.start + 10, 4);
    TailOf(q.mem, p.mem, p.start + 14);
    OneTagMore(p, q, v);
  }

  lemma TailOf(n: seq<byte>, m: seq<byte>, from: nat)
    requires from <= |n| == |m|
    ensures n[from..] == m[from..] ==> forall i :: from <= i < |n| ==> n[i] == m[i]
  {
    if n[from..] == m[from..] {
      forall i | from <= i < |n| ensures n[i] == m[i] {
        assert n[from..][i - from] == m[from..][i - from];
      }
    }
  }

  lemma PoppedMatch(p: Packet)
    requires Editable(p) && First(p.hdrs, Vlan).Some? && p.start + 18 <= p.end
    ensures var q := PopVlan(p);
            && q.start + ETH_HDR <= q.end <= |q.mem|
            && q.match_ == p.match_.(vlan := None, ethType := Some(TypeOf(q)))
  {
    hide First, Without, RemoveTag, SetType, EthType, TotalLen;
  }

  /** pop_vlan keeps the match right if and only if the packet has no second VLAN tag: with one, the match says from
      then on that there is none, and names the type of the tag for that of the packet. */
  lemma PopVlanTellsIff(p: Packet)
    requires Agrees(p) && First(p.hdrs, Vlan).Some? && Tells(p) && !IsLlc(p.mem, p.start)
    requires First(p.hdrs, Vlan) == Some(1) && p.start + 18 <= p.end && U16(p.mem, p.start + 16) >= MIN_ETHERTYPE
    ensures Editable(p) && |p.hdrs| > 1 && (Tells(PopVlan(p)) <==> Lacks(p.hdrs[2..], Vlan))
  {
    hide Parse, Contiguous, VlanAt, NoteAll, Fresh, Classify, RemoveTag, SetType, PopVlan, WellFormed, LayerOfType;
    AgreesIsTidy(p);
    PopVlanAgreesIff(p);
    PopVlanFacts(p);
    var q := PopVlan(p);
    PoppedMatch(p);
    assert q.hdrs[1..] == p.hdrs[2..] && p.hdrs == [p.hdrs[0]] + ([p.hdrs[1]] + p.hdrs[2..]);
    TailOf(q.mem, p.mem, p.start + 18);
    OneTagMore(q, p, p.hdrs[1]);
  }
}
