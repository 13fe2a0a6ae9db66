/** What is refused of action lists and how, and what packing makes of any list that unpacks. */
module ActionLaws {
  import opened Bytes
  import opened ActionCodec
  import BucketCodec

  // ---- how octets are refused ---------------------------------------------------------------------

  /** The two octets name a type that the code knows. */
  predicate Named(s: seq<byte>)
    requires |s| >= 8
  {
    (s[0] == 0 && (s[1] == 0 || s[1] == 11 || s[1] == 12 || 15 <= s[1] <= 25)) || (s[0] == 0xFF && s[1] == 0xFF)
  }

  /** How many octets the structure of the type has. */
  function Structure(s: seq<byte>): nat
    requires |s| >= 8
  {
    if s[0] == 0 && s[1] == 0 then 16 else if s[0] == 0xFF && s[1] == 0xFF then 12 else 8
  }

  /** With which error an action is refused: a length below 8, then an unknown type, then too few octets for the
      type, and then an OUTPUT to port 0 or to port 0xffffffff. */
  lemma RefusedIff(s: seq<byte>)
    requires |s| >= 8
    ensures UnpackAction(s) == Err(BadLen) <==> (s[2] == 0 && s[3] < 8) || (Named(s) && |s| < Structure(s))
    ensures UnpackAction(s) == Err(BadType) <==> !(s[2] == 0 && s[3] < 8) && !Named(s)
    ensures UnpackAction(s) == Err(BadOutPort) <==>
            && !(s[2] == 0 && s[3] < 8) && s[0] == 0 && s[1] == 0 && |s| >= 16
            && (s[4..8] == [0, 0, 0, 0] || s[4..8] == [0xFF, 0xFF, 0xFF, 0xFF])
  {
    assert U32(s, 4) == 0 <==> s[4] == 0 && s[5] == 0 && s[6] == 0 && s[7] == 0;
    assert U32(s, 4) == 0xFFFF_FFFF <==> s[4] == 0xFF && s[5] == 0xFF && s[6] == 0xFF && s[7] == 0xFF;
    assert U16(s, 2) < 8 <==> s[2] == 0 && s[3] < 8;
    assert s[4..8] == [s[4], s[5], s[6], s[7]];
  }

  /** A rest whose first action is refused with the error. */
  predicate RefusedFirst(t: seq<byte>, e: Error) {
    |t| >= 4
    && var n := t[2] as int * 0x100 + t[3];
       if n < 8 then e == BadLen else n <= |t| && UnpackAction(t[..n]) == Err(e)
  }

  predicate RefusedAt(s: seq<byte>, acts: seq<Action>, t: seq<byte>, e: Error) {
    s == Joined(acts) + t && AllAccepted(acts) && RefusedFirst(t, e)
  }

  /** The walk refuses a list with an error if and only if it is some actions that it accepts and then one that it
      refuses with that error; fewer than 8 octets are an empty list, whatever they hold. */
  lemma ListRefusedIff(s: seq<byte>, e: Error)
    requires e != Overrun
    ensures |s| >= 8 ==> (UnpackList(s) == Err(e) <==> exists acts, t :: RefusedAt(s, acts, t, e))
    ensures |s| < 8 ==> UnpackList(s) == Ok([])
    ensures |s| < 16 ==> BucketCodec.UnpackBuckets(s) == Ok([])
  {
    if |s| >= 8 && UnpackList(s) == Err(e) {
      var acts, t := WhereRefused(s, [], e);
      assert RefusedAt(s, acts, t, e);
    }
    if acts, t :| |s| >= 8 && RefusedAt(s, acts, t, e) {
      RefusalFound(s, acts, t, [], e);
    }
  }

  lemma {:induction false} WhereRefused(s: seq<byte>, before: seq<Action>, e: Error)
    returns (acts: seq<Action>, t: seq<byte>)
    requires e != Overrun && UnpackLoop(s, before) == Err(e)
    ensures RefusedAt(s, acts, t, e)
    decreases |s|
  {
    hide UnpackAction;
    if RefusedFirst(s, e) {
      acts, t := [], s;
      assert Joined([]) + s == s;
    } else {
      var n := U16(s, 2);
      var a := s[..n];
      var rest;
      rest, t := WhereRefused(s[n..], before + [a], e);
      acts := [a] + rest;
      assert acts[1..] == rest;
      assert a + (Joined(rest) + t) == Joined(acts) + t;
    }
  }

  lemma {:induction false} RefusalFound(s: seq<byte>, acts: seq<Action>, t: seq<byte>, before: seq<Action>, e: Error)
    requires e != Overrun && RefusedAt(s, acts, t, e)
    ensures UnpackLoop(s, before) == Err(e)
    decreases |acts|
  {
    hide UnpackAction;
    if acts == [] {
      assert s == t;
    } else {
      var a, rest := acts[0], acts[1..];
      assert s == a + (Joined(rest) + t);
      LoopStep(a, Joined(rest) + t, before);
      RefusalFound(Joined(rest) + t, rest, t, before + [a], e);
    }
  }

  /** A rest whose first bucket is refused with the error: a length below 16, or actions that are refused. */
  predicate BucketRefusedFirst(t: seq<byte>, e: Error) {
    |t| >= 2
    && var n := t[0] as int * 0x100 + t[1];
       if n < 16 then e == BadLen else 24 <= n <= |t| && UnpackList(t[16..n]) == Err(e)
  }

  predicate BucketRefusedAt(s: seq<byte>, ps: seq<seq<byte>>, t: seq<byte>, e: Error) {
    s == Joined(ps) + t && BucketCodec.AllAcceptedBuckets(ps) && BucketRefusedFirst(t, e)
  }

  /** The walk over the buckets refuses a list with an error if and only if it is some buckets that it accepts and
      then one that is too short or whose actions are refused with that error. */
  lemma BucketsRefusedIff(s: seq<byte>, e: Error)
    requires e != Overrun && |s| >= 16
    ensures BucketCodec.UnpackBuckets(s) == Err(e) <==> exists ps, t :: BucketRefusedAt(s, ps, t, e)
  {
    if BucketCodec.UnpackBuckets(s) == Err(e) {
      var ps, t := WhereBucketRefused(s, [], e);
      assert BucketRefusedAt(s, ps, t, e);
    }
    if ps, t :| BucketRefusedAt(s, ps, t, e) {
      BucketRefusalFound(s, ps, t, [], e);
    }
  }

  lemma RefusedBucket(s: seq<byte>, e: Error)
    requires e != Overrun && |s| >= 2 && 16 <= U16(s, 0) <= |s|
    ensures BucketRefusedFirst(s, e) <==> BucketCodec.UnpackBucket(s[..U16(s, 0)]) == Err(e)
    ensures BucketCodec.AcceptedBucket(s[..U16(s, 0)]) <==> BucketCodec.UnpackBucket(s[..U16(s, 0)]).Ok?
  {
    hide UnpackList;
    var p := s[..U16(s, 0)];
    assert p[16..] == s[16..U16(s, 0)];
    U16Injective(p, s, 0, 0);
  }

  lemma {:induction false} WhereBucketRefused(s: seq<byte>, before: seq<BucketCodec.Bucket>, e: Error)
    returns (ps: seq<seq<byte>>, t: seq<byte>)
    requires e != Overrun && BucketCodec.UnpackBucketLoop(s, before) == Err(e)
    ensures BucketRefusedAt(s, ps, t, e)
    decreases |s|
  {
    hide BucketCodec.UnpackBucket, BucketCodec.AcceptedBucket, UnpackList;
    if |s| >= 2 && 16 <= U16(s, 0) <= |s| {
      RefusedBucket(s, e);
    }
    if BucketRefusedFirst(s, e) {
      ps, t := [], s;
      assert Joined([]) + s == s;
    } else {
      var n := U16(s, 0);
      var p := s[..n];
      var rest;
      rest, t := WhereBucketRefused(s[n..], before + [BucketCodec.UnpackBucket(p).value], e);
      ps := [p] + rest;
      assert ps[1..] == rest;
      assert p + (Joined(rest) + t) == Joined(ps) + t;
    }
  }

  lemma {:induction false} BucketRefusalFound(
      s: seq<byte>, ps: seq<seq<byte>>, t: seq<byte>, before: seq<BucketCodec.Bucket>, e: Error)
    requires e != Overrun && BucketRefusedAt(s, ps, t, e)
    ensures BucketCodec.UnpackBucketLoop(s, before) == Err(e)
    decreases |ps|
  {
    hide BucketCodec.UnpackBucket, UnpackList;
    if ps == [] {
      assert s == t;
      if 16 <= U16(s, 0) <= |s| {
        RefusedBucket(s, e);
      }
    } else {
      var p, rest := ps[0], ps[1..];
      assert s == p + (Joined(rest) + t);
      assert BucketCodec.AcceptedBucket(p);
      BucketCodec.LoopTakes(p, Joined(rest) + t, before);
      BucketRefusalFound(Joined(rest) + t, rest, t, before + [BucketCodec.UnpackBucket(p).value], e);
    }
  }

  // ---- what packing writes ------------------------------------------------------------------------

  /** How many octets are packed: the structure's, where the type has one of fixed size, or else the whole buffer. */
  function PackedSize(a: Action): nat
    requires |a| >= 8
  {
    if Named(a) && !(a[0] == 0 && a[1] == 25) then Structure(a) else |a|
  }

  /** Packing writes the action's own octets, as many as its type asks for, and their number for a length, whatever
      stood there. */
  lemma PackedIs(a: Action)
    requires |a| >= 8
    ensures Packable(a) <==> PackedSize(a) <= |a|
    ensures Packable(a) ==>
              var r := PackAction(a);
              && |r| == PackedSize(a) && r[2] as int * 0x100 + r[3] == PackedSize(a) % 0x1_0000
              && forall i :: 0 <= i < |r| && i != 2 && i != 3 ==> r[i] == a[i]
  {
    assert Length(a) == PackedSize(a);
    if Packable(a) {
      assert U16(Labelled(a), 2) == PackedSize(a) % 0x1_0000;
    }
  }

  /** Packing a bucket writes the twelve octets of its fields and, sixteen octets on, its actions; the four octets
      between them, and the padding behind, stay as they were in the area. The length is that of header and actions. */
  lemma BucketOctets(b: BucketCodec.Bucket, area: seq<byte>)
    requires BucketCodec.PackableBucket(b) && |area| >= 16 + LengthOf(b.actions)
    ensures BucketCodec.Unpadded(b) == 16 + LengthOf(b.actions)
    ensures var r, n := BucketCodec.PackBucket(b, area), 16 + LengthOf(b.actions);
            && |r| == |area|
            && U16(r, 0) == n % 0x1_0000 && U16(r, 2) == b.weight
            && U32(r, 4) == b.watchPort && U32(r, 8) == b.watchGroup
            && r[12..16] == area[12..16] && r[16..n] == PackList(b.actions) && r[n..] == area[n..]
  {
    hide PackList, LengthOf, BucketCodec.Header;
    var r := BucketCodec.PackBucket(b, area);
    assert r[..16] == BucketCodec.Header(b, area);
    BucketCodec.HeaderFields(b, area, r);
    HeaderRest(b, area);
    assert r[12..16] == r[..16][12..];
  }

  lemma HeaderRest(b: BucketCodec.Bucket, area: seq<byte>)
    requires BucketCodec.PackableBucket(b) && |area| >= 16
    ensures BucketCodec.Header(b, area)[12..] == area[12..16]
  {
  }

  /** What the checks let through packs to a sound action. */
  lemma PackingSettles(a: Action)
    requires Accepted(a)
    ensures Packable(a) && Sound(PackAction(a))
  {
    PackedIs(a);
    var r := PackAction(a);
    assert U16(r, 0) == U16(a, 0);
    assert |r| > 4 ==> U32(r, 4) == U32(a, 4);
  }

  /** The actions as they are packed. */
  function Settled(acts: seq<Action>): (r: seq<Action>)
    requires AllPackable(acts)
    ensures |r| == |acts| && forall i :: 0 <= i < |acts| ==> r[i] == PackAction(acts[i])
  {
    seq(|acts|, i requires 0 <= i < |acts| => PackAction(acts[i]))
  }

  lemma {:induction false} SettledPacksAlike(acts: seq<Action>)
    requires AllPackable(acts) && forall i :: 0 <= i < |acts| ==> Sound(PackAction(acts[i]))
    ensures AllSound(Settled(acts)) && PackList(Settled(acts)) == PackList(acts)
    decreases |acts|
  {
    hide PackAction, Sound;
    if acts != [] {
      SettledPacksAlike(acts[1..]);
      assert Settled(acts)[1..] == Settled(acts[1..]);
      SoundPacksToItself(PackAction(acts[0]));
    }
  }

  /** Whatever octets unpack, packing the list once more settles it: the octets then unpack, and pack to themselves
      from then on. */
  lemma RepackSettles(s: seq<byte>)
    requires |s| >= 8 && UnpackList(s).Ok?
    ensures AllPackable(UnpackList(s).value)
    ensures var t := PackList(UnpackList(s).value);
            UnpackList(t).Ok? && AllSound(UnpackList(t).value) && PackList(UnpackList(t).value) == t
  {
    var acts := UnpackList(s).value;
    LoopConsumes(s, []);
    forall i | 0 <= i < |acts| ensures Packable(acts[i]) && Sound(PackAction(acts[i])) {
      LoopChecks(s, [], i);
      PackingSettles(acts[i]);
    }
    hide PackAction, Sound, UnpackLoop, UnpackList;
    SettledPacksAlike(acts);
    ListRoundTrip(Settled(acts));
  }
}
