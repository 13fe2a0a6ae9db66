/** Lists of OpenFlow 1.2 group buckets: a 16-octet header, the actions, and padding to a multiple of 8. */
module BucketCodec {
  import opened Bytes
  import opened CString
  import opened ActionCodec

  const BUCKET: nat := 16

  datatype Bucket = Bucket(weight: int, watchPort: int, watchGroup: int, actions: seq<Action>)

  predicate InRange(b: Bucket) {
    0 <= b.weight < 0x1_0000 && 0 <= b.watchPort < 0x1_0000_0000 && 0 <= b.watchGroup < 0x1_0000_0000
  }

  predicate PackableBucket(b: Bucket) {
    InRange(b) && AllPackable(b.actions)
  }

  predicate AllPackableBuckets(bs: seq<Bucket>) {
    forall i :: 0 <= i < |bs| ==> PackableBucket(bs[i])
  }

  /** What pack enters as the bucket's length: header and actions, without padding. */
  function Unpadded(b: Bucket): nat
    requires PackableBucket(b)
  {
    BUCKET + LengthOf(b.actions)
  }

  /** What length() returns and the packing loop advances by: a multiple of 8. */
  function Padded(b: Bucket): (n: nat)
    requires PackableBucket(b)
    ensures n % 8 == 0 && Unpadded(b) <= n < Unpadded(b) + 8
  {
    var pad := Unpadded(b) % 8;
    if pad > 0 then Unpadded(b) + (8 - pad) else Unpadded(b)
  }

  /** The 16 octets of the header; its four padding octets stay as they were in the area. */
  function Header(b: Bucket, area: seq<byte>): (r: seq<byte>)
    requires PackableBucket(b) && |area| >= BUCKET
    ensures |r| == BUCKET
  {
    Be16(Unpadded(b) % 0x1_0000) + Be16(b.weight) + Be32(b.watchPort) + Be32(b.watchGroup) + area[12..16]
  }

  /** The area with the bucket packed into its beginning; everything behind the actions stays. */
  function PackBucket(b: Bucket, area: seq<byte>): (r: seq<byte>)
    requires PackableBucket(b) && |area| >= Unpadded(b)
    ensures |r| == |area|
  {
    Header(b, area) + PackList(b.actions) + area[Unpadded(b)..]
  }

  /** What unpacking a bucket from all of s makes of it. */
  function UnpackBucket(s: seq<byte>): Result<Bucket>
    requires |s| >= BUCKET
  {
    var acts := if |s| - BUCKET >= ActionCodec.HEADER then UnpackList(s[BUCKET..]) else Ok([]);
    match acts
    case Err(e) => Err(e)
    case Ok(actions) => Ok(Bucket(U16(s, 2), U32(s, 4), U32(s, 8), actions))
  }

  // ---- lists ----------------------------------------------------------------------------------

  function ListLength(bs: seq<Bucket>): (n: nat)
    requires AllPackableBuckets(bs)
  {
    if bs == [] then 0 else Padded(bs[0]) + ListLength(bs[1..])
  }

  /** The area with the buckets packed one after the other. */
  function PackBuckets(bs: seq<Bucket>, area: seq<byte>): (r: seq<byte>)
    requires AllPackableBuckets(bs) && |area| == ListLength(bs)
    ensures |r| == |area|
  {
    if bs == [] then []
    else
      var n := Padded(bs[0]);
      PackBucket(bs[0], area[..n]) + PackBuckets(bs[1..], area[n..])
  }

  function UnpackBucketLoop(s: seq<byte>, bs: seq<Bucket>): Result<seq<Bucket>>
    decreases |s|
  {
    if s == [] then Ok(bs)
    else if |s| < 2 then Err(Overrun)
    else
      var n := U16(s, 0);
      if n < BUCKET then Err(BadLen)
      else if n > |s| then Err(Overrun)
      else match UnpackBucket(s[..n])
        case Err(e) => Err(e)
        case Ok(b) => UnpackBucketLoop(s[n..], bs + [b])
  }

  function UnpackBuckets(s: seq<byte>): Result<seq<Bucket>> {
    if |s| < BUCKET then Ok([]) else UnpackBucketLoop(s, [])
  }

  // ---- the round trip -------------------------------------------------------------------------

  predicate SoundBucket(b: Bucket): (r: bool)
    ensures r ==> PackableBucket(b)
  {
    InRange(b) && AllSound(b.actions)
  }

  predicate AllSoundBuckets(bs: seq<Bucket>): (r: bool)
    ensures r ==> AllPackableBuckets(bs)
  {
    forall i :: 0 <= i < |bs| ==> SoundBucket(bs[i])
  }

  /** The bucket needs no padding and its length fits its 16-bit field. */
  predicate Aligned(b: Bucket)
    requires PackableBucket(b)
  {
    Unpadded(b) % 8 == 0 && Unpadded(b) < 0x1_0000
  }

  /** The fields of the header, read back. */
  lemma HeaderFields(b: Bucket, area: seq<byte>, s: seq<byte>)
    requires PackableBucket(b) && |area| >= BUCKET && |s| >= BUCKET && s[..BUCKET] == Header(b, area)
    ensures U16(s, 0) == Unpadded(b) % 0x1_0000
    ensures U16(s, 2) == b.weight && U32(s, 4) == b.watchPort && U32(s, 8) == b.watchGroup
  {
    var h := Header(b, area);
    var w, p, g := Be16(b.weight), Be32(b.watchPort), Be32(b.watchGroup);
    var l := Be16(Unpadded(b) % 0x1_0000);
    hide Header, Be16, Be32;
    assert forall i :: 0 <= i < BUCKET ==> s[i] == h[i];
    HeaderParts(b, area);
    U16Injective(s, l, 0, 0);
    U16Injective(s, w, 2, 0);
    U16Injective(s, p, 4, 0);
    U16Injective(s, p, 6, 2);
    U16Injective(s, g, 8, 0);
    U16Injective(s, g, 10, 2);
  }

  lemma HeaderParts(b: Bucket, area: seq<byte>)
    requires PackableBucket(b) && |area| >= BUCKET
    ensures var h := Header(b, area);
            && h[0..2] == Be16(Unpadded(b) % 0x1_0000) && h[2..4] == Be16(b.weight)
            && h[4..8] == Be32(b.watchPort) && h[8..12] == Be32(b.watchGroup)
    ensures var h := Header(b, area);
            && (forall i :: 0 <= i < 2 ==> h[i] == Be16(Unpadded(b) % 0x1_0000)[i] && h[2 + i] == Be16(b.weight)[i])
            && (forall i :: 0 <= i < 4 ==> h[4 + i] == Be32(b.watchPort)[i] && h[8 + i] == Be32(b.watchGroup)[i])
  {
    hide Be16, Be32;
  }

  lemma CatSplit<T>(a: seq<T>, b: seq<T>)
    ensures (a + b)[..|a|] == a && (a + b)[|a|..] == b
  {
  }

  lemma CatAssociates<T>(a: seq<T>, b: seq<T>, c: seq<T>)
    ensures a + b + c == a + (b + c)
  {
  }

  /** The octets of a bucket without its padding. */
  function Packed(b: Bucket, area: seq<byte>): (r: seq<byte>)
    requires PackableBucket(b) && |area| >= BUCKET
    ensures |r| == Unpadded(b)
  {
    Header(b, area) + PackList(b.actions)
  }

  lemma PackedUnpacks(b: Bucket, area: seq<byte>)
    requires SoundBucket(b) && |area| >= BUCKET
    ensures UnpackBucket(Packed(b, area)) == Ok(b)
    ensures U16(Packed(b, area), 0) == Unpadded(b) % 0x1_0000
  {
    var p := Packed(b, area);
    CatSplit(Header(b, area), PackList(b.actions));
    HeaderFields(b, area, p);
    ListRoundTrip(b.actions);
    NoRoomNoActions(b.actions);
    hide UnpackList, PackList, Header, AllSound;
    assert p[BUCKET..] == PackList(b.actions);
  }

  lemma LoopTakes(p: seq<byte>, rest: seq<byte>, before: seq<Bucket>)
    requires |p| >= BUCKET && U16(p, 0) == |p| && UnpackBucket(p).Ok?
    ensures UnpackBucketLoop(p + rest, before) == UnpackBucketLoop(rest, before + [UnpackBucket(p).value])
  {
    CatSplit(p, rest);
    U16Injective(p + rest, p, 0, 0);
    hide UnpackBucket;
  }

  /** The first bucket of a packed list is unpacked as it was. */
  lemma FirstUnpacks(b: Bucket, area: seq<byte>, rest: seq<byte>, before: seq<Bucket>)
    requires SoundBucket(b) && Unpadded(b) < 0x1_0000 && |area| >= BUCKET
    ensures UnpackBucketLoop(Packed(b, area) + rest, before) == UnpackBucketLoop(rest, before + [b])
  {
    assert Unpadded(b) >= BUCKET;
    hide *;
    PackedUnpacks(b, area);
    LoopTakes(Packed(b, area), rest, before);
  }

  lemma NoRoomNoActions(acts: seq<Action>)
    requires AllSound(acts)
    ensures LengthOf(acts) < ActionCodec.HEADER ==> acts == []
  {
    if acts != [] {
      assert Sound(acts[0]);
    }
  }

  /** A packed list: the first bucket, its padding as it was in the area, and the other buckets. */
  lemma PackSplit(bs: seq<Bucket>, area: seq<byte>)
    requires AllPackableBuckets(bs) && |area| == ListLength(bs) && bs != []
    ensures var n, p := Unpadded(bs[0]), Padded(bs[0]);
            PackBuckets(bs, area) == Packed(bs[0], area) + (area[n..p] + PackBuckets(bs[1..], area[p..]))
  {
    var b, n, p := bs[0], Unpadded(bs[0]), Padded(bs[0]);
    var rest := PackBuckets(bs[1..], area[p..]);
    assert PackBuckets(bs, area) == PackBucket(b, area[..p]) + rest;
    assert area[..p][12..16] == area[12..16];
    assert Packed(b, area[..p]) == Packed(b, area);
    assert area[..p][n..] == area[n..p];
    assert PackBucket(b, area[..p]) == Packed(b, area) + area[n..p];
    hide *;
    CatAssociates(Packed(b, area), area[n..p], rest);
  }

  predicate AllAligned(bs: seq<Bucket>)
    requires AllPackableBuckets(bs)
  {
    forall i :: 0 <= i < |bs| ==> Aligned(bs[i])
  }

  /** What holds of all buckets holds of the first and of the others. */
  lemma HeadAndTail(bs: seq<Bucket>)
    requires AllSoundBuckets(bs) && bs != []
    ensures SoundBucket(bs[0]) && AllSoundBuckets(bs[1..])
    ensures AllAligned(bs) <==> Aligned(bs[0]) && AllAligned(bs[1..])
    ensures ListLength(bs) == Padded(bs[0]) + ListLength(bs[1..])
  {
    hide Aligned;
    if !AllAligned(bs) {
      var i :| 0 <= i < |bs| && !Aligned(bs[i]);
      assert i > 0 ==> bs[1..][i - 1] == bs[i];
    }
  }

  lemma {:induction false} AlignedRoundTrip(bs: seq<Bucket>, area: seq<byte>, before: seq<Bucket>)
    requires AllSoundBuckets(bs) && AllAligned(bs) && |area| == ListLength(bs)
    ensures UnpackBucketLoop(PackBuckets(bs, area), before) == Ok(before + bs)
    decreases |bs|
  {
    if bs == [] {
      assert before + bs == before;
    } else {
      var b, tail := bs[0], bs[1..];
      HeadAndTail(bs);
      assert [b] + tail == bs;
      AlignedStep(b, tail, area, before);
      AlignedRoundTrip(tail, area[Padded(b)..], before + [b]);
      hide *;
      CatAssociates(before, [b], tail);
    }
  }

  lemma AlignedStep(b: Bucket, tail: seq<Bucket>, area: seq<byte>, before: seq<Bucket>)
    requires SoundBucket(b) && Aligned(b)
    requires AllPackableBuckets(tail) && |area| == Padded(b) + ListLength(tail)
    requires AllPackableBuckets([b] + tail) && ListLength([b] + tail) == |area|
    ensures UnpackBucketLoop(PackBuckets([b] + tail, area), before) ==
            UnpackBucketLoop(PackBuckets(tail, area[Padded(b)..]), before + [b])
  {
    var p, rest := Padded(b), PackBuckets(tail, area[Padded(b)..]);
    assert p == Unpadded(b) < 0x1_0000 && p >= BUCKET;
    PackSplit([b] + tail, area);
    assert ([b] + tail)[1..] == tail;
    FirstUnpacks(b, area, rest, before);
    hide *;
    assert area[p..p] + rest == rest;
  }

  /** Unpacking a bucket consumes its octets: they are the header and its actions, but for fewer than 8. */
  lemma UnpackedLength(s: seq<byte>)
    requires |s| >= BUCKET && UnpackBucket(s).Ok?
    ensures var acts := UnpackBucket(s).value.actions;
            if |s| >= BUCKET + ActionCodec.HEADER then Stored(acts) == |s| - BUCKET else acts == []
  {
    if |s| >= BUCKET + ActionCodec.HEADER {
      LoopConsumes(s[BUCKET..], []);
      var acts := UnpackBucket(s).value.actions;
      assert acts[0..] == acts;
    }
  }

  /** The first bucket that the loop unpacks comes right after those unpacked before. */
  lemma {:induction false} LoopExtends(s: seq<byte>, before: seq<Bucket>)
    requires UnpackBucketLoop(s, before).Ok?
    ensures var r := UnpackBucketLoop(s, before).value;
            && |before| <= |r| && r[..|before|] == before
            && (s != [] ==> |s| >= 2 && BUCKET <= U16(s, 0) <= |s| && UnpackBucket(s[..U16(s, 0)]).Ok?
                            && |before| < |r| && r[|before|] == UnpackBucket(s[..U16(s, 0)]).value)
    decreases |s|
  {
    var r := UnpackBucketLoop(s, before).value;
    if s != [] {
      var n := U16(s, 0);
      var b := UnpackBucket(s[..n]).value;
      LoopExtends(s[n..], before + [b]);
      assert r[..|before|] == r[..|before| + 1][..|before|] == before;
      assert r[|before|] == r[..|before| + 1][|before|] == b;
    }
  }

  /** A length field other than the bucket's own length never unpacks to the bucket. */
  lemma WrongLength(s: seq<byte>, before: seq<Bucket>, b: Bucket, after: seq<Bucket>)
    requires SoundBucket(b)
    requires UnpackBucketLoop(s, before) == Ok(before + [b] + after)
    ensures |s| >= 2 && (U16(s, 0) == Unpadded(b) || (b.actions == [] && BUCKET <= U16(s, 0)))
  {
    var r := before + [b] + after;
    assert |r| > |before|;
    if s != [] {
      LoopExtends(s, before);
      assert r[|before|] == b;
      UnpackedLength(s[..U16(s, 0)]);
      SoundStored(b.actions);
    }
  }

  predicate AllZero(area: seq<byte>) {
    forall i :: 0 <= i < |area| ==> area[i] == 0
  }

  /** The first two octets of a packed list. */
  lemma FirstOctets(bs: seq<Bucket>, area: seq<byte>)
    requires AllPackableBuckets(bs) && |area| == ListLength(bs) && bs != []
    ensures U16(PackBuckets(bs, area), 0) == Unpadded(bs[0]) % 0x1_0000
  {
    PackSplit(bs, area);
    var p := Packed(bs[0], area);
    CatSplit(Header(bs[0], area), PackList(bs[0].actions));
    HeaderFields(bs[0], area, p);
    hide *;
    U16Injective(PackBuckets(bs, area), p, 0, 0);
  }

  /** Behind a bucket that needs padding the loop does not find the others. */
  lemma PaddingMisleads(k: nat, bs: seq<Bucket>, area: seq<byte>, before: seq<Bucket>)
    requires AllSoundBuckets(bs) && |area| == ListLength(bs) && 0 < k < 8
    ensures UnpackBucketLoop(Zeros(k) + PackBuckets(bs, area), before) != Ok(before + bs)
  {
    var s := Zeros(k) + PackBuckets(bs, area);
    if k == 1 && bs != [] {
      HeadAndTail(bs);
      FirstOctets(bs, area);
      OneZero(PackBuckets(bs, area));
      assert [bs[0]] + bs[1..] == bs;
      var b, tail := bs[0], bs[1..];
      hide *;
      if UnpackBucketLoop(s, before) == Ok(before + bs) {
        CatAssociates(before, [b], tail);
        WrongLength(s, before, b, tail);
        ShortOfActions(b, U16(s, 0));
      }
    } else {
      assert k > 1 ==> U16(s, 0) == 0;
    }
  }

  /** The high octet of a bucket's length is not its length. */
  lemma ShortOfActions(b: Bucket, n: int)
    requires PackableBucket(b) && n == (Unpadded(b) % 0x1_0000) / 0x100
    ensures n != Unpadded(b) && (b.actions == [] ==> n < BUCKET)
  {
  }

  lemma OneZero(s: seq<byte>)
    requires |s| >= 2
    ensures U16(Zeros(1) + s, 0) == U16(s, 0) / 0x100
  {
  }

  /** A bucket too long for its field. */
  lemma TooLongFails(bs: seq<Bucket>, area: seq<byte>, before: seq<Bucket>)
    requires AllSoundBuckets(bs) && |area| == ListLength(bs) && bs != [] && Unpadded(bs[0]) >= 0x1_0000
    ensures UnpackBucketLoop(PackBuckets(bs, area), before) != Ok(before + bs)
  {
    hide PackBuckets, UnpackBucketLoop, ListLength, AllSoundBuckets, Unpadded;
    var s, b, tail := PackBuckets(bs, area), bs[0], bs[1..];
    HeadAndTail(bs);
    FirstOctets(bs, area);
    WideBucket(b);
    assert [b] + tail == bs;
    if UnpackBucketLoop(s, before) == Ok(before + bs) {
      CatAssociates(before, [b], tail);
      WrongLength(s, before, b, tail);
    }
  }

  lemma WideBucket(b: Bucket)
    requires SoundBucket(b)
    ensures Unpadded(b) >= 0x1_0000 ==> b.actions != [] && Unpadded(b) % 0x1_0000 != Unpadded(b)
  {
  }

  /** A bucket that needs padding. */
  lemma PaddedFails(bs: seq<Bucket>, area: seq<byte>, before: seq<Bucket>)
    requires AllSoundBuckets(bs) && |area| == ListLength(bs) && AllZero(area) && bs != []
    requires Unpadded(bs[0]) < 0x1_0000 && Unpadded(bs[0]) < Padded(bs[0])
    ensures UnpackBucketLoop(PackBuckets(bs, area), before) != Ok(before + bs)
  {
    hide PackBuckets, UnpackBucketLoop, ListLength, AllSoundBuckets, Unpadded, Padded, Packed, Zeros, AllZero;
    var b, tail := bs[0], bs[1..];
    var n, p := Unpadded(b), Padded(b);
    HeadAndTail(bs);
    PackSplit(bs, area);
    LongEnough(b);
    assert [b] + tail == bs;
    ZerosAre(area, n, p);
    CatAssociates(before, [b], tail);
    FirstUnpacks(b, area, area[n..p] + PackBuckets(tail, area[p..]), before);
    PaddingMisleads(p - n, tail, area[p..], before + [b]);
  }

  lemma ZerosAre(area: seq<byte>, n: nat, p: nat)
    requires AllZero(area) && n <= p <= |area|
    ensures area[n..p] == Zeros(p - n)
  {
  }

  lemma LongEnough(b: Bucket)
    requires SoundBucket(b)
    ensures BUCKET <= Unpadded(b) <= Padded(b)
    ensures Unpadded(b) == Padded(b) < 0x1_0000 ==> Aligned(b)
  {
  }

  lemma {:induction false} MisalignedFails(bs: seq<Bucket>, area: seq<byte>, before: seq<Bucket>)
    requires AllSoundBuckets(bs) && !AllAligned(bs) && |area| == ListLength(bs) && AllZero(area)
    ensures UnpackBucketLoop(PackBuckets(bs, area), before) != Ok(before + bs)
    decreases |bs|
  {
    hide PackBuckets, UnpackBucketLoop, ListLength, AllSoundBuckets, Unpadded, Padded, Aligned;
    var b, tail := bs[0], bs[1..];
    HeadAndTail(bs);
    LongEnough(b);
    if Unpadded(b) >= 0x1_0000 {
      TooLongFails(bs, area, before);
    } else if Unpadded(b) < Padded(b) {
      PaddedFails(bs, area, before);
    } else {
      assert [b] + tail == bs;
      CatAssociates(before, [b], tail);
      AlignedStep(b, tail, area, before);
      MisalignedFails(tail, area[Padded(b)..], before + [b]);
    }
  }

  /** Packed into a zeroed area, a list of buckets with sound actions unpacks to itself if and only if no
      bucket needs padding and every bucket's length fits its field. */
  lemma RoundTripIff(bs: seq<Bucket>, area: seq<byte>)
    requires AllSoundBuckets(bs) && |area| == ListLength(bs) && AllZero(area)
    ensures UnpackBuckets(PackBuckets(bs, area)) == Ok(bs) <==> AllAligned(bs)
  {
    assert [] + bs == bs;
    if AllAligned(bs) {
      AlignedRoundTrip(bs, area, []);
    } else {
      MisalignedFails(bs, area, []);
    }
    if bs != [] {
      assert |PackBuckets(bs, area)| >= Padded(bs[0]) >= BUCKET;
    }
  }

  /** Packed into any area, a list of buckets that need no padding unpacks to itself. */
  lemma RoundTrip(bs: seq<Bucket>, area: seq<byte>)
    requires AllSoundBuckets(bs) && AllAligned(bs) && |area| == ListLength(bs)
    ensures UnpackBuckets(PackBuckets(bs, area)) == Ok(bs)
  {
    assert [] + bs == bs;
    AlignedRoundTrip(bs, area, []);
    if bs != [] {
      assert |PackBuckets(bs, area)| >= Padded(bs[0]) >= BUCKET;
    }
  }

  /** One EXPERIMENTER action, twelve octets long, in a bucket: sound, but 28 octets and not a multiple of 8,
      so that the list of this one bucket does not unpack to itself. */
  lemma PaddedBucketFails()
    ensures var b := Bucket(0, 0, 0, [[0xFF, 0xFF, 0, 12, 0, 0, 0, 0, 0, 0, 0, 0]]);
            && AllSoundBuckets([b]) && Unpadded(b) == 28 && ListLength([b]) == 32
            && UnpackBuckets(PackBuckets([b], Zeros(32))) != Ok([b])
  {
    var a: Action := [0xFF, 0xFF, 0, 12, 0, 0, 0, 0, 0, 0, 0, 0];
    assert Sound(a);
    var b := Bucket(0, 0, 0, [a]);
    assert LengthOf([a]) == 12 + LengthOf([a][1..]);
    assert Unpadded(b) == 28;
    assert [b][1..] == [];
    hide Sound, PackBuckets, UnpackBuckets;
    RoundTripIff([b], Zeros(32));
    assert !Aligned([b][0]);
  }

  // ---- where the walk leaves its octets ---------------------------------------------------------

  /** Octets that the loop takes for one bucket. */
  predicate AcceptedBucket(p: seq<byte>) {
    |p| >= BUCKET && U16(p, 0) == |p| && UnpackBucket(p).Ok?
  }

  predicate AllAcceptedBuckets(ps: seq<seq<byte>>) {
    forall i :: 0 <= i < |ps| ==> AcceptedBucket(ps[i])
  }

  /** A rest that ends before its length field does, declares more octets than there are, or is a bucket in
      which the walk over the actions leaves its octets. */
  ghost predicate BucketRunsOver(t: seq<byte>) {
    t != [] && (|t| < 2 || (U16(t, 0) >= BUCKET && (U16(t, 0) > |t| || ActionsRunOver(t[BUCKET..U16(t, 0)]))))
  }

  ghost predicate ActionsRunOver(s: seq<byte>) {
    |s| >= ActionCodec.HEADER && exists acts, t :: Overruns(s, acts, t)
  }

  ghost predicate BucketsOverrun(s: seq<byte>, ps: seq<seq<byte>>, t: seq<byte>) {
    s == Joined(ps) + t && AllAcceptedBuckets(ps) && BucketRunsOver(t)
  }

  lemma BucketOverrunIff(p: seq<byte>)
    requires |p| >= BUCKET
    ensures UnpackBucket(p) == Err(Overrun) <==> ActionsRunOver(p[BUCKET..])
  {
    OverrunIff(p[BUCKET..]);
    hide Overruns, UnpackLoop;
  }

  /** The walk over the buckets leaves its octets if and only if they are some buckets that it accepts and then
      a rest that breaks off, declares more than there is, or holds actions that do so. */
  lemma BucketsOverrunIff(s: seq<byte>)
    ensures UnpackBucketLoop(s, []) == Err(Overrun) <==> exists ps, t :: BucketsOverrun(s, ps, t)
  {
    if UnpackBucketLoop(s, []) == Err(Overrun) {
      var ps, t := WhereBucketsRunOver(s, []);
    }
    forall ps, t | BucketsOverrun(s, ps, t) ensures UnpackBucketLoop(s, []) == Err(Overrun) {
      hide *;
      BucketsOverrunFound(s, ps, t, []);
    }
  }

  /** A bucket that declares 24 octets, of which the 16 of its header are there. */
  lemma ShortBucketOverruns()
    ensures UnpackBucketLoop([0, 24] + Zeros(14), []) == Err(Overrun)
  {
    var s: seq<byte> := [0, 24] + Zeros(14);
    assert U16(s, 0) == 24;
  }

  /** Where the loop stands at a rest that begins with a whole bucket. */
  lemma BucketEnds(s: seq<byte>)
    requires |s| >= 2 && BUCKET <= U16(s, 0) <= |s|
    ensures BucketRunsOver(s) <==> UnpackBucket(s[..U16(s, 0)]) == Err(Overrun)
    ensures AcceptedBucket(s[..U16(s, 0)]) <==> UnpackBucket(s[..U16(s, 0)]).Ok?
  {
    var p := s[..U16(s, 0)];
    assert p[BUCKET..] == s[BUCKET..U16(s, 0)];
    hide ActionsRunOver, UnpackBucket;
    BucketOverrunIff(p);
    U16Injective(p, s, 0, 0);
  }

  lemma {:induction false} WhereBucketsRunOver(s: seq<byte>, before: seq<Bucket>)
    returns (ps: seq<seq<byte>>, t: seq<byte>)
    requires UnpackBucketLoop(s, before) == Err(Overrun)
    ensures BucketsOverrun(s, ps, t)
    decreases |s|
  {
    hide UnpackBucket, ActionsRunOver, AcceptedBucket;
    if |s| >= 2 && BUCKET <= U16(s, 0) <= |s| {
      BucketEnds(s);
    }
    if BucketRunsOver(s) {
      ps, t := [], s;
      assert Joined([]) + s == s;
    } else {
      var n := U16(s, 0);
      var p := s[..n];
      var rest;
      rest, t := WhereBucketsRunOver(s[n..], before + [UnpackBucket(p).value]);
      ps := [p] + rest;
      assert ps[1..] == rest;
      assert p + (Joined(rest) + t) == Joined(ps) + t;
    }
  }

  lemma {:induction false} BucketsOverrunFound(s: seq<byte>, ps: seq<seq<byte>>, t: seq<byte>, before: seq<Bucket>)
    requires BucketsOverrun(s, ps, t)
    ensures UnpackBucketLoop(s, before) == Err(Overrun)
    decreases |ps|
  {
    hide UnpackBucket, ActionsRunOver;
    if ps == [] {
      assert s == t;
      if |s| >= 2 && BUCKET <= U16(s, 0) <= |s| {
        BucketEnds(s);
      }
    } else {
      var p, rest := ps[0], ps[1..];
      assert s == p + (Joined(rest) + t);
      assert AcceptedBucket(p);
      LoopTakes(p, Joined(rest) + t, before);
      BucketsOverrunFound(Joined(rest) + t, rest, t, before + [UnpackBucket(p).value]);
    }
  }

  /** Every bucket of a packed list starts on an 8-octet boundary. */
  lemma {:induction false} BucketsOnBoundaries(bs: seq<Bucket>, i: nat)
    requires AllPackableBuckets(bs) && i <= |bs|
    ensures ListLength(bs[..i]) % 8 == 0 && ListLength(bs[..i]) <= ListLength(bs)
  {
    hide Padded, Unpadded, PackableBucket, ListLength;
    LengthOfHead(bs);
    LengthOfHead(bs[..i]);
    if i > 0 {
      BucketsOnBoundaries(bs[1..], i - 1);
      assert bs[..i][1..] == bs[1..][..i - 1];
    } else {
      assert bs[..i] == [];
    }
  }

  lemma LengthOfHead(bs: seq<Bucket>)
    requires AllPackableBuckets(bs)
    ensures bs == [] ==> ListLength(bs) == 0
    ensures bs != [] ==>
              && PackableBucket(bs[0]) && AllPackableBuckets(bs[1..])
              && ListLength(bs) == Padded(bs[0]) + ListLength(bs[1..])
  {
    hide Padded, PackableBucket;
  }

  // ---- the object -----------------------------------------------------------------------------

  /** The twelve octets that pack writes of the header. */
  function Fields(b: Bucket): (r: seq<byte>)
    requires PackableBucket(b)
    ensures |r| == 12
  {
    Be16(Unpadded(b) % 0x1_0000) + Be16(b.weight) + Be32(b.watchPort) + Be32(b.watchGroup)
  }

  /** Writing the fields, and the actions 16 octets on, is packing the bucket. */
  lemma TwoWrites(b: Bucket, area: seq<byte>, pos: nat)
    requires PackableBucket(b) && pos + Padded(b) <= |area|
    ensures Written(Written(area, pos, Fields(b)), pos + BUCKET, PackList(b.actions)) ==
            Written(area, pos, PackBucket(b, area[pos..pos + Padded(b)]))
  {
    var f, acts, n, p := Fields(b), PackList(b.actions), Unpadded(b), Padded(b);
    var slot := area[pos..pos + p];
    SubSlice(area, pos, p, 12, BUCKET);
    SubSlice(area, pos, p, n, p);
    assert Header(b, slot) == f + area[pos + 12..pos + BUCKET];
    assert PackBucket(b, slot) == f + area[pos + 12..pos + BUCKET] + acts + area[pos + n..pos + p];
    hide *;
    WrittenTwice(area, pos, f, BUCKET, acts, p);
  }

  lemma SubSlice(s: seq<byte>, pos: nat, p: nat, i: nat, j: nat)
    requires pos + p <= |s| && i <= j <= p
    ensures s[pos..pos + p][i..j] == s[pos + i..pos + j]
  {
    var slot := s[pos..pos + p];
    assert |slot[i..j]| == j - i;
    forall k | 0 <= k < j - i ensures slot[i..j][k] == s[pos + i..pos + j][k] {
      assert slot[i..j][k] == slot[i + k] == s[pos + i + k];
    }
  }

  lemma WrittenTwice(area: seq<byte>, pos: nat, f: seq<byte>, gap: nat, acts: seq<byte>, p: nat)
    requires |f| <= gap && gap + |acts| <= p && pos + p <= |area|
    ensures Written(Written(area, pos, f), pos + gap, acts) ==
            Written(area, pos, f + area[pos + |f|..pos + gap] + acts + area[pos + gap + |acts|..pos + p])
  {
    var once := Written(area, pos, f);
    var a := Written(once, pos + gap, acts);
    var b := Written(area, pos, f + area[pos + |f|..pos + gap] + acts + area[pos + gap + |acts|..pos + p]);
    forall k | 0 <= k < |area| ensures a[k] == b[k] {
      if k < pos + gap {
        assert a[k] == once[k];
      } else if k >= pos + gap + |acts| {
        assert a[k] == once[k] == area[k];
      }
    }
  }

  lemma NextBucket(bs: seq<Bucket>, i: nat, area: seq<byte>)
    requires AllPackableBuckets(bs) && i < |bs| && AllPackableBuckets(bs[i..]) && |area| == ListLength(bs[i..])
    ensures var b := bs[i];
            && PackableBucket(b) && AllPackableBuckets(bs[i + 1..])
            && ListLength(bs[i..]) == Padded(b) + ListLength(bs[i + 1..])
            && PackBuckets(bs[i..], area) ==
                  PackBucket(b, area[..Padded(b)]) + PackBuckets(bs[i + 1..], area[Padded(b)..])
  {
    assert bs[i..][1..] == bs[i + 1..] && bs[i..][0] == bs[i];
    HeadOfPackable(bs[i..]);
  }

  /** What lies behind the octets written is as it was. */
  lemma WrittenBehind(area: seq<byte>, at: nat, done: seq<byte>, p: nat, whole: seq<byte>)
    requires at + |whole| <= |area| && whole == area[at..at + |whole|] && |done| + p <= |whole|
    ensures Written(area, at, done)[at + |done|..at + |done| + p] == whole[|done|..|done| + p]
  {
    var w, n := Written(area, at, done), |done|;
    assert forall k :: at + n <= k < |area| ==> w[k] == area[k];
    SubSlice(area, at, |whole|, n, n + p);
  }

  lemma HeadOfPackable(bs: seq<Bucket>)
    requires AllPackableBuckets(bs) && bs != []
    ensures PackableBucket(bs[0]) && AllPackableBuckets(bs[1..])
  {
  }

  class Cofbclist {
    var elems: seq<Bucket>

    constructor ()
      ensures elems == []
    {
      elems := [];
    }

    method Length() returns (len: nat)
      requires AllPackableBuckets(elems)
      ensures len == ListLength(elems)
    {
      len := 0;
      var i := 0;
      while i < |elems|
        invariant 0 <= i <= |elems|
        invariant ListLength(elems) == len + ListLength(elems[i..])
      {
        assert elems[i..][1..] == elems[i + 1..];
        len := len + Padded(elems[i]);
        i := i + 1;
      }
    }

    method Unpack(buf: array<byte>, at: nat, bclen: nat) returns (r: Result<seq<Bucket>>)
      requires at + bclen <= buf.Length
      modifies this
      ensures r == UnpackBuckets(buf[at..at + bclen])
      ensures r.Ok? ==> elems == r.value
    {
      elems := [];
      if bclen < BUCKET {
        return Ok([]);
      }
      var rest := buf[at..at + bclen];
      while rest != []
        invariant UnpackBucketLoop(buf[at..at + bclen], []) == UnpackBucketLoop(rest, elems)
        decreases |rest|
      {
        if |rest| < 2 {
          return Err(Overrun);
        }
        var n := U16(rest, 0);
        if n < BUCKET {
          return Err(BadLen);
        }
        if n > |rest| {
          return Err(Overrun);
        }
        match UnpackBucket(rest[..n]) {
          case Err(e) => return Err(e);
          case Ok(b) => elems := elems + [b];
        }
        rest := rest[n..];
      }
      return Ok(elems);
    }

    method PackOne(b: Bucket, buf: array<byte>, pos: nat) returns (n: nat)
      requires PackableBucket(b) && pos + Padded(b) <= buf.Length
      modifies buf
      ensures n == Padded(b) && buf[..] == Written(old(buf[..]), pos, PackBucket(b, old(buf[..])[pos..pos + Padded(b)]))
    {
      TwoWrites(b, buf[..], pos);
      n := Padded(b);
      MemPut(buf, pos, Fields(b));
      MemPut(buf, pos + BUCKET, PackList(b.actions));
    }

    /** Writes bucket after bucket, each on the next 8-octet boundary; eBcListInval when there is no room. */
    method Pack(buf: array<byte>, at: nat, bclen: nat) returns (ok: bool)
      requires AllPackableBuckets(elems) && at + bclen <= buf.Length
      modifies buf
      ensures ok <==> bclen >= ListLength(elems)
      ensures buf[..] ==
              if ok then Written(old(buf[..]), at, PackBuckets(elems, old(buf[..])[at..at + ListLength(elems)]))
                         else old(buf[..])
    {
      hide *;
      var needed := Length();
      if bclen < needed {
        return false;
      }
      PackAll(buf, at);
      return true;
    }

    method PackAll(buf: array<byte>, at: nat)
      requires AllPackableBuckets(elems) && at + ListLength(elems) <= buf.Length
      modifies buf
      ensures buf[..] == Written(old(buf[..]), at, PackBuckets(elems, old(buf[..])[at..at + ListLength(elems)]))
    {
      hide *;
      ghost var was, done := buf[..], [];
      ghost var whole := was[at..at + ListLength(elems)];
      var pos, i := at, 0;
      PackStart(elems, was, at, whole);
      while i < |elems|
        invariant 0 <= i <= |elems| && pos == at + |done| && AllPackableBuckets(elems[i..])
        invariant |done| + ListLength(elems[i..]) == |whole|
        invariant done + PackBuckets(elems[i..], whole[|done|..]) == PackBuckets(elems, whole)
        invariant buf[..] == Written(was, at, done)
      {
        PackNext(elems, i, was, at, whole, done);
        var n := PackOne(elems[i], buf, pos);
        done := done + PackBucket(elems[i], whole[|done|..|done| + n]);
        pos := pos + n;
        i := i + 1;
      }
      PackNoBuckets(elems[i..], whole[|done|..]);
      assert done + [] == done;
    }
  }

  lemma PackStart(bs: seq<Bucket>, area: seq<byte>, at: nat, whole: seq<byte>)
    requires AllPackableBuckets(bs) && |whole| == ListLength(bs) && at <= |area|
    ensures bs[0..] == bs && whole[0..] == whole && [] + PackBuckets(bs, whole) == PackBuckets(bs, whole)
    ensures Written(area, at, []) == area
  {
    WrittenNothing(area, at);
  }

  /** One more bucket packed: the octets written so far, and those to come. */
  lemma PackNext(bs: seq<Bucket>, i: nat, area: seq<byte>, at: nat, whole: seq<byte>, done: seq<byte>)
    requires AllPackableBuckets(bs) && i < |bs| && AllPackableBuckets(bs[i..])
    requires at + |whole| <= |area| && whole == area[at..at + |whole|]
    requires |done| + ListLength(bs[i..]) == |whole|
    ensures PackableBucket(bs[i]) && AllPackableBuckets(bs[i + 1..])
    ensures var n, p := |done|, Padded(bs[i]);
            && n + p + ListLength(bs[i + 1..]) == |whole|
            && Written(area, at, done)[at + n..at + n + p] == whole[n..n + p]
            && done + PackBuckets(bs[i..], whole[n..]) ==
               done + PackBucket(bs[i], whole[n..n + p]) + PackBuckets(bs[i + 1..], whole[n + p..])
            && Written(Written(area, at, done), at + n, PackBucket(bs[i], whole[n..n + p])) ==
               Written(area, at, done + PackBucket(bs[i], whole[n..n + p]))
  {
    hide *;
    var n := |done|;
    NextBucket(bs, i, whole[n..]);
    var p := Padded(bs[i]);
    assert whole[n..][..p] == whole[n..n + p] && whole[n..][p..] == whole[n + p..];
    WrittenBehind(area, at, done, p, whole);
    CatAssociates(done, PackBucket(bs[i], whole[n..n + p]), PackBuckets(bs[i + 1..], whole[n + p..]));
    WrittenOn(area, at, done, PackBucket(bs[i], whole[n..n + p]));
  }

  lemma PackNoBuckets(bs: seq<Bucket>, area: seq<byte>)
    requires bs == [] && AllPackableBuckets(bs) && |area| == ListLength(bs)
    ensures PackBuckets(bs, area) == []
  {
  }
}
