/** Lists of OpenFlow 1.2 actions and their wire form (section A.2.5 of OpenFlow 1.2). An action is the
    octets of its buffer, which begin with its type and its length. */
module ActionCodec {
  import opened Bytes
  import opened CString

  type Action = seq<byte>

  const HEADER: nat := 8

  const OUTPUT: int := 0
  const EXPERIMENTER: int := 0xFFFF
  const SET_FIELD: int := 25

  datatype Error = BadLen | BadOutPort | BadType | Overrun

  /** What unpacking yields; Overrun where the code would read beyond the buffer. */
  datatype Result<T> = Ok(value: T) | Err(error: Error)

  predicate KnownType(t: int) {
    t == OUTPUT || t == 11 || t == 12 || 15 <= t <= SET_FIELD || t == EXPERIMENTER
  }

  /** The smallest buffer an action of the type fits in. */
  function MinLength(t: int): nat {
    if t == OUTPUT then 16 else if t == EXPERIMENTER then 12 else HEADER
  }

  /** The length an action packs to: the size of its structure, or the whole buffer for SET_FIELD and for
      types the code does not know. */
  function Length(a: Action): (n: nat)
    requires |a| >= HEADER
  {
    var t := U16(a, 0);
    if KnownType(t) && t != SET_FIELD then MinLength(t) else |a|
  }

  /** What unpacking an action from all of s makes of it. */
  function UnpackAction(s: seq<byte>): (r: Result<Action>)
    requires |s| >= HEADER
    ensures r.Ok? ==> r.value == s
    ensures r != Err(Overrun)
  {
    var t := U16(s, 0);
    if U16(s, 2) < HEADER then Err(BadLen)
    else if !KnownType(t) then Err(BadType)
    else if |s| < MinLength(t) then Err(BadLen)
    else if t == OUTPUT && (U32(s, 4) == 0xFFFF_FFFF || U32(s, 4) == 0) then Err(BadOutPort)
    else Ok(s)
  }

  /** The buffer holds the structure that the type stands for. */
  predicate Packable(a: Action) {
    HEADER <= |a| && Length(a) <= |a|
  }

  predicate AllPackable(acts: seq<Action>) {
    forall i :: 0 <= i < |acts| ==> Packable(acts[i])
  }

  /** pack writes the length into the action's own buffer first. */
  function Labelled(a: Action): (r: Action)
    requires Packable(a)
    ensures |r| == |a| && Packable(r) && Length(r) == Length(a)
  {
    PutU16(a, 2, Length(a) % 0x1_0000)
  }

  /** The octets an action packs to. */
  function PackAction(a: Action): (r: seq<byte>)
    requires Packable(a)
    ensures |r| == Length(a)
  {
    Labelled(a)[..Length(a)]
  }

  /** An action that the type checks accept and whose stored length is the one it packs to. */
  predicate Sound(a: Action): (r: bool)
    ensures r ==> Packable(a)
  {
    |a| >= HEADER && UnpackAction(a).Ok? && |a| == U16(a, 2) == Length(a)
  }

  predicate AllSound(acts: seq<Action>): (r: bool)
    ensures r ==> AllPackable(acts)
  {
    forall i :: 0 <= i < |acts| ==> Sound(acts[i])
  }

  lemma SoundPacksToItself(a: Action)
    requires Sound(a)
    ensures PackAction(a) == a
  {
    var r := PutU16(a, 2, |a|);
    U16Injective(r, a, 2, 2);
  }

  /** What the type, length and port checks let through, in the numbers of the standard: OUTPUT to a port that is
      not 0 and not 0xffffffff in 16 octets or more, EXPERIMENTER in 12 or more, and the types 11, 12 and 15 to
      25 in 8 or more; all with a length field of 8 or more. */
  lemma LetThroughIff(s: seq<byte>)
    requires |s| >= 8
    ensures UnpackAction(s).Ok? <==>
            && (s[2] > 0 || s[3] >= 8)
            && ((s[0] == 0 && s[1] == 0 && |s| >= 16
                 && !(s[4] == 0 && s[5] == 0 && s[6] == 0 && s[7] == 0)
                 && !(s[4] == 0xFF && s[5] == 0xFF && s[6] == 0xFF && s[7] == 0xFF))
                || (s[0] == 0 && (s[1] == 11 || s[1] == 12 || 15 <= s[1] <= 25))
                || (s[0] == 0xFF && s[1] == 0xFF && |s| >= 12))
  {
    assert U32(s, 4) == 0 <==> s[4] == 0 && s[5] == 0 && s[6] == 0 && s[7] == 0;
    assert U32(s, 4) == 0xFFFF_FFFF <==> s[4] == 0xFF && s[5] == 0xFF && s[6] == 0xFF && s[7] == 0xFF;
    assert U16(s, 2) < 8 <==> s[2] == 0 && s[3] < 8;
  }

  /** Which actions are sound: those whose length field is their length, that is 16 for OUTPUT, 12 for
      EXPERIMENTER, anything from 8 on for SET_FIELD, and 8 for the others. They pack to all their octets. */
  lemma SoundIff(a: Action)
    requires |a| >= 8
    ensures Sound(a) <==>
            && UnpackAction(a).Ok? && a[2] as int * 0x100 + a[3] == |a|
            && (a[0] == 0 && a[1] == 0 ==> |a| == 16)
            && (a[0] == 0xFF && a[1] == 0xFF ==> |a| == 12)
            && (a[0] == 0 && (a[1] == 11 || a[1] == 12 || 15 <= a[1] <= 24) ==> |a| == 8)
    ensures Sound(a) ==> PackAction(a) == a
  {
    if Sound(a) {
      SoundPacksToItself(a);
    }
  }

  // ---- lists ----------------------------------------------------------------------------------

  function LengthOf(acts: seq<Action>): (n: nat)
    requires AllPackable(acts)
  {
    if acts == [] then 0 else Length(acts[0]) + LengthOf(acts[1..])
  }

  function PackList(acts: seq<Action>): (r: seq<byte>)
    requires AllPackable(acts)
    ensures |r| == LengthOf(acts)
  {
    if acts == [] then [] else PackAction(acts[0]) + PackList(acts[1..])
  }

  /** The loop of unpack, with the actions unpacked so far. */
  function UnpackLoop(s: seq<byte>, acts: seq<Action>): Result<seq<Action>>
    decreases |s|
  {
    if s == [] then Ok(acts)
    else if |s| < 4 then Err(Overrun)
    else
      var n := U16(s, 2);
      if n < HEADER then Err(BadLen)
      else if n > |s| then Err(Overrun)
      else match UnpackAction(s[..n])
        case Err(e) => Err(e)
        case Ok(a) => UnpackLoop(s[n..], acts + [a])
  }

  function UnpackList(s: seq<byte>): Result<seq<Action>> {
    if |s| < HEADER then Ok([]) else UnpackLoop(s, [])
  }

  lemma {:induction false} LoopRoundTrip(acts: seq<Action>, before: seq<Action>)
    requires AllSound(acts)
    ensures UnpackLoop(PackList(acts), before) == Ok(before + acts)
    decreases |acts|
  {
    if acts == [] {
      assert before + acts == before;
    } else {
      var a, rest := acts[0], acts[1..];
      PackedFirst(acts);
      hide *;
      LoopStep(a, PackList(rest), before);
      LoopRoundTrip(rest, before + [a]);
      assert before + [a] + rest == before + ([a] + rest);
    }
  }

  /** A packed list of sound actions: the first action itself, and the others packed. */
  lemma PackedFirst(acts: seq<Action>)
    requires AllSound(acts) && acts != []
    ensures AllSound(acts[1..]) && Accepted(acts[0]) && acts == [acts[0]] + acts[1..]
    ensures PackList(acts) == acts[0] + PackList(acts[1..])
  {
    assert Sound(acts[0]);
    hide UnpackAction, Length, PackAction;
    SoundPacksToItself(acts[0]);
  }

  lemma LoopStep(a: Action, s: seq<byte>, before: seq<Action>)
    requires Accepted(a)
    ensures UnpackLoop(a + s, before) == UnpackLoop(s, before + [a])
  {
    hide UnpackAction;
    var t := a + s;
    assert t[..|a|] == a && t[|a|..] == s;
    U16Injective(t, a, 2, 2);
  }

  // ---- where the walk leaves its octets ---------------------------------------------------------

  /** Octets that the loop takes for one action. */
  predicate Accepted(a: Action) {
    |a| >= HEADER && U16(a, 2) == |a| && UnpackAction(a).Ok?
  }

  predicate AllAccepted(acts: seq<Action>) {
    forall i :: 0 <= i < |acts| ==> Accepted(acts[i])
  }

  function Joined(acts: seq<Action>): seq<byte> {
    if acts == [] then [] else acts[0] + Joined(acts[1..])
  }

  /** A rest that ends before its length field does, or declares more octets than there are. */
  predicate RunsOver(t: seq<byte>) {
    t != [] && (|t| < 4 || (U16(t, 2) >= HEADER && U16(t, 2) > |t|))
  }

  predicate Overruns(s: seq<byte>, acts: seq<Action>, t: seq<byte>) {
    s == Joined(acts) + t && AllAccepted(acts) && RunsOver(t)
  }

  /** The walk leaves its octets if and only if they are some actions that it accepts and then a rest that
      breaks off within its header or declares more than there is. */
  lemma OverrunIff(s: seq<byte>)
    ensures UnpackLoop(s, []) == Err(Overrun) <==> exists acts, t :: Overruns(s, acts, t)
  {
    if UnpackLoop(s, []) == Err(Overrun) {
      var acts, t := WhereItRunsOver(s, []);
    }
    forall acts, t | Overruns(s, acts, t) ensures UnpackLoop(s, []) == Err(Overrun) {
      hide *;
      OverrunFound(s, acts, t, []);
    }
  }

  /** An OUTPUT action that declares its 16 octets, of which 8 are there. */
  lemma ShortOutputOverruns()
    ensures UnpackLoop([0, 0, 0, 16, 0, 0, 0, 1], []) == Err(Overrun)
  {
    var s: seq<byte> := [0, 0, 0, 16, 0, 0, 0, 1];
    assert U16(s, 2) == 16;
  }

  lemma {:induction false} WhereItRunsOver(s: seq<byte>, before: seq<Action>) returns (acts: seq<Action>, t: seq<byte>)
    requires UnpackLoop(s, before) == Err(Overrun)
    ensures Overruns(s, acts, t)
    decreases |s|
  {
    hide UnpackAction;
    if RunsOver(s) {
      acts, t := [], s;
      assert Joined([]) + s == s;
    } else {
      var n := U16(s, 2);
      var a := s[..n];
      var rest;
      rest, t := WhereItRunsOver(s[n..], before + [a]);
      acts := [a] + rest;
      assert acts[1..] == rest;
      assert a + (Joined(rest) + t) == Joined(acts) + t;
    }
  }

  lemma {:induction false} OverrunFound(s: seq<byte>, acts: seq<Action>, t: seq<byte>, before: seq<Action>)
    requires Overruns(s, acts, t)
    ensures UnpackLoop(s, before) == Err(Overrun)
    decreases |acts|
  {
    hide UnpackAction;
    if acts == [] {
      assert s == t;
    } else {
      var a, rest := acts[0], acts[1..];
      assert s == a + (Joined(rest) + t);
      LoopStep(a, Joined(rest) + t, before);
      OverrunFound(Joined(rest) + t, rest, t, before + [a]);
    }
  }

  /** Unpacking what was packed gives the list back. */
  lemma ListRoundTrip(acts: seq<Action>)
    requires AllSound(acts)
    ensures UnpackList(PackList(acts)) == Ok(acts)
  {
    LoopRoundTrip(acts, []);
    assert [] + acts == acts;
    if acts != [] {
      assert Sound(acts[0]);
    }
  }

  /** Unpacking consumes its octets to the last one: the actions' stored lengths add up to them. */
  lemma {:induction false} LoopConsumes(s: seq<byte>, before: seq<Action>)
    requires UnpackLoop(s, before).Ok?
    ensures var r := UnpackLoop(s, before).value;
            |before| <= |r| && r[..|before|] == before && Stored(r[|before|..]) == |s|
    decreases |s|
  {
    var r := UnpackLoop(s, before).value;
    if s == [] {
      assert r[|before|..] == [];
    } else {
      var n := U16(s, 2);
      var a := s[..n];
      LoopConsumes(s[n..], before + [a]);
      assert r[..|before|] == r[..|before| + 1][..|before|] == before;
      assert r[|before|..][0] == r[..|before| + 1][|before|] == a;
      assert r[|before|..][1..] == r[|before| + 1..];
    }
  }

  function Stored(acts: seq<Action>): nat {
    if acts == [] then 0 else |acts[0]| + Stored(acts[1..])
  }

  lemma {:induction false} SoundStored(acts: seq<Action>)
    requires AllSound(acts)
    ensures Stored(acts) == LengthOf(acts)
  {
    if acts != [] {
      assert Sound(acts[0]);
      SoundStored(acts[1..]);
    }
  }

  lemma {:induction false} LoopChecks(s: seq<byte>, before: seq<Action>, i: nat)
    requires UnpackLoop(s, before).Ok? && |before| <= i < |UnpackLoop(s, before).value|
    ensures var a := UnpackLoop(s, before).value[i];
            |a| >= HEADER && U16(a, 2) == |a| && UnpackAction(a).Ok? && Packable(a)
    decreases |s|
  {
    if s != [] {
      var n := U16(s, 2);
      var a := s[..n];
      LoopConsumes(s[n..], before + [a]);
      if i == |before| {
        assert UnpackLoop(s, before).value[..i + 1][i] == a;
      } else {
        LoopChecks(s[n..], before + [a], i);
      }
    }
  }

  /** Packing what was unpacked gives the octets back if and only if every action's stored length is the
      one it packs to. */
  lemma RepackIff(s: seq<byte>)
    requires |s| >= HEADER && UnpackList(s).Ok?
    ensures var acts := UnpackList(s).value;
            AllPackable(acts) && (PackList(acts) == s <==> AllSound(acts))
  {
    var acts := UnpackList(s).value;
    LoopConsumes(s, []);
    assert acts[0..] == acts;
    forall i | 0 <= i < |acts| ensures Packable(acts[i]) && U16(acts[i], 2) == |acts[i]| && UnpackAction(acts[i]).Ok? {
      LoopChecks(s, [], i);
    }
    LengthsAdd(acts);
    if AllSound(acts) {
      LoopInverse(s, []);
    }
  }

  lemma {:induction false} LengthsAdd(acts: seq<Action>)
    requires AllPackable(acts)
    ensures LengthOf(acts) <= Stored(acts)
    ensures LengthOf(acts) == Stored(acts) ==> forall i :: 0 <= i < |acts| ==> Length(acts[i]) == |acts[i]|
  {
    if acts != [] {
      LengthsAdd(acts[1..]);
    }
  }

  lemma {:induction false} LoopInverse(s: seq<byte>, before: seq<Action>)
    requires UnpackLoop(s, before).Ok?
    requires var r := UnpackLoop(s, before).value; |before| <= |r| && AllSound(r[|before|..])
    ensures var r := UnpackLoop(s, before).value; PackList(r[|before|..]) == s
    decreases |s|
  {
    hide UnpackLoop, UnpackAction, Length, PackAction, PackList, Sound, U16;
    var acts := UnpackLoop(s, before).value[|before|..];
    if s == [] {
      LoopNone(before);
      assert acts == [];
    } else {
      LoopFirst(s, before);
      PackedFirst(acts);
      var n := U16(s, 2);
      LoopInverse(s[n..], before + [s[..n]]);
      assert s == s[..n] + s[n..];
    }
  }

  lemma LoopNone(before: seq<Action>)
    ensures UnpackLoop([], before) == Ok(before) && PackList([]) == []
  {
  }

  /** The first action unpacked, and the others. */
  lemma LoopFirst(s: seq<byte>, before: seq<Action>)
    requires s != [] && UnpackLoop(s, before).Ok?
    ensures |s| >= 4 && HEADER <= U16(s, 2) <= |s|
    ensures var r := UnpackLoop(s, before).value; var a := s[..U16(s, 2)];
            && |before| < |r| && UnpackLoop(s, before) == UnpackLoop(s[U16(s, 2)..], before + [a])
            && r[|before|..][0] == a && r[|before|..][1..] == r[|before| + 1..]
  {
    var r, a := UnpackLoop(s, before).value, s[..U16(s, 2)];
    LoopConsumes(s[U16(s, 2)..], before + [a]);
    assert r[|before|] == r[..|before| + 1][|before|] == a;
  }

  // ---- the object -----------------------------------------------------------------------------

  class Cofaclist {
    var elems: seq<Action>

    constructor ()
      ensures elems == []
    {
      elems := [];
    }

    /** Steps through the octets from one action header to the next. */
    method Unpack(buf: array<byte>, at: nat, aclen: nat) returns (r: Result<seq<Action>>)
      requires at + aclen <= buf.Length
      modifies this
      ensures r == UnpackList(buf[at..at + aclen])
      ensures r.Ok? ==> elems == r.value
    {
      elems := [];
      if aclen < HEADER {
        return Ok([]);
      }
      var rest := buf[at..at + aclen];
      while rest != []
        invariant UnpackLoop(buf[at..at + aclen], []) == UnpackLoop(rest, elems)
        decreases |rest|
      {
        if |rest| < 4 {
          return Err(Overrun);
        }
        var n := U16(rest, 2);
        if n < HEADER {
          return Err(BadLen);
        }
        if n > |rest| {
          return Err(Overrun);
        }
        match UnpackAction(rest[..n]) {
          case Err(e) => return Err(e);
          case Ok(a) => elems := elems + [a];
        }
        rest := rest[n..];
      }
      return Ok(elems);
    }

    method ListLength() returns (len: nat)
      requires AllPackable(elems)
      ensures len == LengthOf(elems)
    {
      len := 0;
      var i := 0;
      while i < |elems|
        invariant 0 <= i <= |elems|
        invariant LengthOf(elems) == len + LengthOf(elems[i..])
      {
        assert elems[i..][1..] == elems[i + 1..];
        len := len + Length(elems[i]);
        i := i + 1;
      }
    }

    /** The action labels itself and copies itself to the buffer. */
    method PackOne(i: nat, buf: array<byte>, pos: nat) returns (n: nat)
      requires i < |elems| && Packable(elems[i]) && pos + Length(elems[i]) <= buf.Length
      modifies this, buf
      ensures n == Length(old(elems)[i]) && elems == old(elems)[i := Labelled(old(elems)[i])]
      ensures buf[..] == Written(old(buf[..]), pos, PackAction(old(elems)[i]))
    {
      n := Length(elems[i]);
      elems := elems[i := Labelled(elems[i])];
      MemPut(buf, pos, elems[i][..n]);
    }

    /** Writes the actions one after the other, each of its own length; eAcListInval when there is no
        room for all. */
    method Pack(buf: array<byte>, at: nat, aclen: nat) returns (ok: bool)
      requires AllPackable(elems) && at + aclen <= buf.Length
      modifies this, buf
      ensures ok <==> aclen >= LengthOf(old(elems))
      ensures buf[..] == if ok then Written(old(buf[..]), at, PackList(old(elems))) else old(buf[..])
      ensures ArePacked(old(elems), elems, if ok then |elems| else 0)
    {
      var needed := ListLength();
      PackNone(elems, buf[..], at);
      if aclen < needed {
        return false;
      }
      PackAll(buf, at);
      return true;
    }

    method PackAll(buf: array<byte>, at: nat)
      requires AllPackable(elems) && at + LengthOf(elems) <= buf.Length
      modifies this, buf
      ensures buf[..] == Written(old(buf[..]), at, PackList(old(elems)))
      ensures ArePacked(old(elems), elems, |elems|)
    {
      hide *;
      ghost var was, done := elems, [];
      var pos, i := at, 0;
      PackNone(elems, buf[..], at);
      while i < |elems|
        invariant 0 <= i <= |elems| == |was| && pos == at + |done|
        invariant AllPackable(was[i..]) && done + PackList(was[i..]) == PackList(was)
        invariant ArePacked(was, elems, i)
        invariant buf[..] == Written(old(buf[..]), at, done)
      {
        PackStep(was, elems, i, old(buf[..]), at, done);
        var n := PackOne(i, buf, pos);
        done := done + PackAction(was[i]);
        pos := pos + n;
        i := i + 1;
      }
      PackNone(was[i..], buf[..], at);
      assert done + [] == done;
    }
  }

  lemma PackNone(acts: seq<Action>, area: seq<byte>, at: nat)
    requires AllPackable(acts) && at <= |area|
    ensures acts == [] ==> PackList(acts) == []
    ensures ArePacked(acts, acts, 0) && acts[0..] == acts && [] + PackList(acts) == PackList(acts)
    ensures Written(area, at, []) == area
  {
    WrittenNothing(area, at);
  }

  /** now is the list was after the first i actions have packed themselves. */
  ghost predicate ArePacked(was: seq<Action>, now: seq<Action>, i: nat)
    requires AllPackable(was)
  {
    |now| == |was| && forall j :: 0 <= j < |was| ==> now[j] == if j < i then Labelled(was[j]) else was[j]
  }

  /** One more action packed: the list, and the octets written so far. */
  lemma PackStep(was: seq<Action>, now: seq<Action>, i: nat, area: seq<byte>, at: nat, done: seq<byte>)
    requires AllPackable(was) && i < |now| == |was| && ArePacked(was, now, i)
    requires AllPackable(was[i..]) && done + PackList(was[i..]) == PackList(was) && at + |PackList(was)| <= |area|
    ensures now[i] == was[i] && Packable(was[i]) && AllPackable(was[i + 1..])
    ensures ArePacked(was, now[i := Labelled(was[i])], i + 1)
    ensures done + PackAction(was[i]) + PackList(was[i + 1..]) == PackList(was)
    ensures at + |done| + Length(was[i]) <= |area|
    ensures Written(Written(area, at, done), at + |done|, PackAction(was[i])) ==
            Written(area, at, done + PackAction(was[i]))
  {
    var octets, rest := PackAction(was[i]), PackList(was[i + 1..]);
    assert was[i..][1..] == was[i + 1..];
    assert PackList(was[i..]) == octets + rest;
    hide *;
    assert done + (octets + rest) == done + octets + rest;
    WrittenOn(area, at, done, octets);
    PackedNext(was, now, i);
  }

  lemma PackedNext(was: seq<Action>, now: seq<Action>, i: nat)
    requires AllPackable(was) && ArePacked(was, now, i) && i < |now| == |was|
    ensures now[i] == was[i] && ArePacked(was, now[i := Labelled(was[i])], i + 1)
  {
  }
}
