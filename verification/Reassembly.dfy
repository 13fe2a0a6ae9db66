/** handle_read of the switch and controller sessions: whole OpenFlow messages out of a byte stream that
    arrives in arbitrary pieces. Messages begin with the 8-octet header of section A.1 of OpenFlow 1.2,
    whose third and fourth octets hold the message length. */
module Reassembly {
  import opened Bytes
  import Memory

  const HEADER: nat := 8

  /** What the socket has in store: octets, or the answer read gives when none are there. */
  datatype Arrival = Data(octets: seq<byte>) | Again | Refused | Broken | Eof

  datatype Outcome =
    | Suspended
    | Delivered(msg: seq<byte>)
    | Reconnecting
    | Failed
    | Closed
    | Malformed

  /** What one call of handle_read makes of the octets got so far and of the arrivals. */
  datatype Pumped = Pumped(outcome: Outcome, got: seq<byte>, rest: seq<Arrival>)

  // ---- one call -------------------------------------------------------------------------------

  /** The size of the message buffer: the header, or the declared length once the header is complete. */
  function MemLen(got: seq<byte>): (n: nat)
    ensures n >= HEADER
  {
    if |got| >= HEADER && U16(got, 2) > HEADER then U16(got, 2) else HEADER
  }

  /** How many octets the code asks read for; nothing sensible when not positive. */
  function Want(got: seq<byte>): int {
    (if |got| < HEADER then HEADER else U16(got, 2)) - |got|
  }

  /** The length field as the code reads it, from a buffer whose missing octets are zero. */
  function LengthField(got: seq<byte>): int {
    U16(Memory.Resized(got, MemLen(got)), 2)
  }

  /** The octets and empty answers still to come; a measure of the work left. */
  function Size(arr: seq<Arrival>): nat {
    if arr == [] then 0 else 1 + (if arr[0].Data? then |arr[0].octets| else 0) + Size(arr[1..])
  }

  function After(arr: seq<Arrival>, n: nat): seq<Arrival>
    requires arr != [] && arr[0].Data? && n <= |arr[0].octets|
  {
    if n < |arr[0].octets| then [Data(arr[0].octets[n..])] + arr[1..] else arr[1..]
  }

  lemma AfterSmaller(arr: seq<Arrival>, n: nat)
    requires arr != [] && arr[0].Data? && 0 < n <= |arr[0].octets|
    ensures Size(After(arr, n)) < Size(arr)
  {
    if n < |arr[0].octets| {
      assert After(arr, n)[1..] == arr[1..];
    }
  }

  function Least(a: int, b: int): int { if a < b then a else b }

  /** got with what the next read adds to it. */
  function Read(got: seq<byte>, arr: seq<Arrival>): seq<byte>
    requires arr != [] && arr[0].Data? && Want(got) > 0
  {
    got + arr[0].octets[..Least(|arr[0].octets|, Want(got))]
  }

  function Unread(got: seq<byte>, arr: seq<Arrival>): (r: seq<Arrival>)
    requires arr != [] && arr[0].Data? && arr[0].octets != [] && Want(got) > 0
    ensures Size(r) < Size(arr)
  {
    var n := Least(|arr[0].octets|, Want(got));
    AfterSmaller(arr, n);
    After(arr, n)
  }

  function Pump(got: seq<byte>, arr: seq<Arrival>): (p: Pumped)
    ensures Size(p.rest) <= Size(arr)
    ensures arr != [] && !p.outcome.Malformed? ==> Size(p.rest) < Size(arr)
    decreases Size(arr)
  {
    if Want(got) <= 0 then Pumped(Malformed, got, arr)
    else if arr == [] then Pumped(Suspended, got, [])
    else match arr[0]
      case Again => Pumped(Suspended, got, arr[1..])
      case Refused => Pumped(Reconnecting, got, arr[1..])
      case Broken => Pumped(Failed, got, arr[1..])
      case Eof => Pumped(Closed, got, arr[1..])
      case Data(b) =>
        if b == [] then Pumped(Suspended, got, arr[1..])
        else
          var more, rest := Read(got, arr), Unread(got, arr);
          if LengthField(more) == |more| then Pumped(Delivered(Memory.Resized(more, MemLen(got))), [], rest)
          else Pump(more, rest)
  }

  // ---- many calls -----------------------------------------------------------------------------

  datatype Served = Served(msgs: seq<seq<byte>>, got: seq<byte>, rest: seq<Arrival>)

  /** handle_read called for as long as anything arrives and the connection stays up. */
  function Serve(got: seq<byte>, arr: seq<Arrival>): Served
    decreases Size(arr)
  {
    if arr == [] then Served([], got, [])
    else
      var p := Pump(got, arr);
      match p.outcome
      case Delivered(m) => var s := Serve([], p.rest); s.(msgs := [m] + s.msgs)
      case Suspended => Serve(p.got, p.rest)
      case _ => Served([], p.got, p.rest)
  }

  // ---- what the stream means ------------------------------------------------------------------

  function Stream(arr: seq<Arrival>): seq<byte> {
    if arr == [] then [] else (if arr[0].Data? then arr[0].octets else []) + Stream(arr[1..])
  }

  /** Nothing but octets and EAGAIN. */
  predicate Quiet(arr: seq<Arrival>) {
    forall a :: a in arr ==> a.Data? || a.Again?
  }

  /** Messages that declare at least their header, the last one perhaps unfinished. */
  predicate Framed(s: seq<byte>) {
    |s| >= 4 ==> U16(s, 2) >= HEADER && (|s| >= U16(s, 2) ==> Framed(s[U16(s, 2)..]))
  }

  /** s begins with a whole message. */
  predicate Whole(s: seq<byte>) {
    |s| >= 4 && |s| >= U16(s, 2)
  }

  function Messages(s: seq<byte>): (ms: seq<seq<byte>>)
    requires Framed(s)
    ensures forall m :: m in ms ==> |m| >= HEADER && U16(m, 2) == |m|
    decreases |s|
  {
    if Whole(s) then [s[..U16(s, 2)]] + Messages(s[U16(s, 2)..]) else []
  }

  function Tail(s: seq<byte>): (t: seq<byte>)
    requires Framed(s)
    ensures Framed(t) && !Whole(t)
    decreases |s|
  {
    if Whole(s) then Tail(s[U16(s, 2)..]) else s
  }

  function Concat(ms: seq<seq<byte>>): seq<byte> {
    if ms == [] then [] else ms[0] + Concat(ms[1..])
  }

  lemma {:induction false} MessagesAndTail(s: seq<byte>)
    requires Framed(s)
    ensures s == Concat(Messages(s)) + Tail(s)
    decreases |s|
  {
    if Whole(s) {
      var d := U16(s, 2);
      MessagesAndTail(s[d..]);
      assert s == s[..d] + s[d..];
      assert Messages(s)[1..] == Messages(s[d..]);
    }
  }

  // ---- the theorem ----------------------------------------------------------------------------

  lemma StreamCons(a: Arrival, arr: seq<Arrival>)
    ensures Stream([a] + arr) == (if a.Data? then a.octets else []) + Stream(arr)
  {
    assert ([a] + arr)[1..] == arr;
  }

  lemma StreamAfter(arr: seq<Arrival>, n: nat)
    requires arr != [] && arr[0].Data? && n <= |arr[0].octets| && Quiet(arr)
    ensures Stream(arr) == arr[0].octets[..n] + Stream(After(arr, n)) && Quiet(After(arr, n))
  {
    var b, tail := arr[0].octets, arr[1..];
    assert Stream(arr) == b + Stream(tail);
    hide Stream;
    assert b == b[..n] + b[n..];
    if n < |b| {
      StreamCons(Data(b[n..]), tail);
      assert b[..n] + (b[n..] + Stream(tail)) == b + Stream(tail);
    }
  }

  lemma WantPositive(got: seq<byte>, s: seq<byte>)
    requires got <= s && Framed(s) && !Whole(got)
    ensures Want(got) > 0
  {
  }

  /** got, without a whole message, and got read on: the length field the code looks at is right. */
  lemma PartialHeader(got: seq<byte>, more: seq<byte>, s: seq<byte>)
    requires got < more <= s && Framed(s) && !Whole(got) && |more| <= |got| + Want(got)
    ensures LengthField(more) == |more| <==> Whole(more)
    ensures Whole(more) ==> MemLen(got) == |more| == U16(more, 2)
  {
    var mem := Memory.Resized(more, MemLen(more));
    assert mem[2] == if |more| > 2 then more[2] else 0;
    assert mem[3] == if |more| > 3 then more[3] else 0;
    if |more| >= 4 {
      assert U16(more, 2) == U16(s, 2) == LengthField(more);
      assert |got| >= 4 ==> U16(got, 2) == U16(s, 2);
    }
  }

  /** A read takes octets off the front of the stream, and no more than asked for. */
  lemma ReadKeeps(got: seq<byte>, arr: seq<Arrival>)
    requires Quiet(arr) && arr != [] && arr[0].Data? && arr[0].octets != [] && Want(got) > 0
    ensures var more := Read(got, arr); var rest := Unread(got, arr);
            && got + Stream(arr) == more + Stream(rest) && Quiet(rest)
            && got < more && |more| <= |got| + Want(got)
  {
    hide Stream, Quiet, Want, After;
    var n := Least(|arr[0].octets|, Want(got));
    StreamAfter(arr, n);
    var b, tail := arr[0].octets[..n], Stream(After(arr, n));
    assert got + (b + tail) == got + b + tail;
  }

  /** After a read there is a whole message or there is none, and the code can tell. */
  lemma ReadFrames(got: seq<byte>, arr: seq<Arrival>)
    requires Quiet(arr) && Framed(got + Stream(arr)) && !Whole(got)
    requires arr != [] && arr[0].Data? && arr[0].octets != []
    ensures Want(got) > 0
    ensures var more := Read(got, arr);
            && (LengthField(more) == |more| <==> Whole(more))
            && (Whole(more) ==> MemLen(got) == |more| == U16(more, 2))
  {
    hide Stream, Quiet, LengthField, MemLen, Read, Unread;
    var s := got + Stream(arr);
    WantPositive(got, s);
    ReadKeeps(got, arr);
    hide Want, Framed, Whole;
    PartialHeader(got, Read(got, arr), s);
  }

  /** One call either delivers exactly the next message, and leaves every later octet to be read, or
      suspends with all octets read so far kept. */
  lemma {:induction false} PumpFrames(got: seq<byte>, arr: seq<Arrival>)
    requires Quiet(arr) && Framed(got + Stream(arr)) && !Whole(got)
    ensures var p := Pump(got, arr);
            && Quiet(p.rest)
            && match p.outcome
               case Delivered(m) => |m| >= HEADER && U16(m, 2) == |m| && got + Stream(arr) == m + Stream(p.rest)
               case Suspended => got + Stream(arr) == p.got + Stream(p.rest) && !Whole(p.got)
               case _ => false
    decreases Size(arr)
  {
    WantPositive(got, got + Stream(arr));
    hide Framed, LengthField, MemLen, Want, Read, Unread, Size;
    if arr != [] {
      var s := got + Stream(arr);
      assert arr[0] in arr;
      if arr[0].Again? || arr[0].octets == [] {
        assert got + Stream(arr[1..]) == s;
      } else {
        ReadFrames(got, arr);
        ReadKeeps(got, arr);
        var more, rest := Read(got, arr), Unread(got, arr);
        if !Whole(more) {
          PumpFrames(more, rest);
        }
      }
    }
  }

  /** However the stream is cut into pieces, handle_read hands over exactly its messages, in order, each
      buffer exactly its message, and holds exactly the unfinished rest. */
  lemma {:induction false} ServeFrames(got: seq<byte>, arr: seq<Arrival>)
    requires Quiet(arr) && Framed(got + Stream(arr)) && !Whole(got)
    ensures var v := Serve(got, arr);
            v.msgs == Messages(got + Stream(arr)) && v.got == Tail(got + Stream(arr)) && v.rest == []
    decreases Size(arr)
  {
    var s := got + Stream(arr);
    if arr == [] {
      assert s == got;
    } else {
      var p := Pump(got, arr);
      PumpFrames(got, arr);
      match p.outcome {
        case Delivered(m) =>
          assert s[..|m|] == m && s[|m|..] == Stream(p.rest) == [] + Stream(p.rest);
          assert U16(s, 2) == U16(m, 2);
          ServeFrames([], p.rest);
        case Suspended => ServeFrames(p.got, p.rest);
      }
    }
  }

  /** A whole message: at least the 8 octets of the header, with its length in the third and the fourth. */
  predicate IsMessage(m: seq<byte>) {
    |m| >= 8 && m[2] as int * 0x100 + m[3] == |m|
  }

  /** The beginning of a message: less than it declares, or less than its length field. */
  predicate Begun(t: seq<byte>) {
    |t| < 4 || (t[2] as int * 0x100 + t[3] >= 8 && |t| < t[2] as int * 0x100 + t[3])
  }

  lemma FramedCons(m: seq<byte>, rest: seq<byte>)
    requires IsMessage(m) && Framed(rest)
    ensures Framed(m + rest) && Messages(m + rest) == [m] + Messages(rest) && Tail(m + rest) == Tail(rest)
  {
    var s := m + rest;
    assert s[..|m|] == m && s[|m|..] == rest && U16(s, 2) == |m|;
  }

  lemma FramedBegun(t: seq<byte>)
    requires Begun(t)
    ensures Framed(t) && Messages(t) == [] && Tail(t) == t
  {
  }

  lemma {:induction false} FramedSent(ms: seq<seq<byte>>, t: seq<byte>)
    requires (forall i :: 0 <= i < |ms| ==> IsMessage(ms[i])) && Begun(t)
    ensures Framed(Concat(ms) + t) && Messages(Concat(ms) + t) == ms && Tail(Concat(ms) + t) == t
    decreases |ms|
  {
    hide Framed, Messages, Tail, Begun, IsMessage;
    if ms == [] {
      FramedBegun(t);
      assert Concat(ms) + t == t;
    } else {
      var m, rest := ms[0], Concat(ms[1..]) + t;
      FramedSent(ms[1..], t);
      FramedCons(m, rest);
      assert Concat(ms) + t == m + rest && ms == [m] + ms[1..];
    }
  }

  /** Whatever messages are sent, and however the octets are cut into pieces and whatever empty answers come between,
      handle_read hands over exactly these messages, in order, and holds the beginning of the next. */
  lemma SentAreDelivered(ms: seq<seq<byte>>, t: seq<byte>, arr: seq<Arrival>)
    requires (forall i :: 0 <= i < |ms| ==> IsMessage(ms[i])) && Begun(t)
    requires Quiet(arr) && Stream(arr) == Concat(ms) + t
    ensures var v := Serve([], arr); v.msgs == ms && v.got == t && v.rest == []
  {
    FramedSent(ms, t);
    assert [] + Stream(arr) == Stream(arr);
    ServeFrames([], arr);
  }

  // ---- after a broken connection --------------------------------------------------------------

  const HELLO: seq<byte> := [1, 0, 0, 8, 0, 0, 0, 0]

  lemma {:induction false} LongPump(got: seq<byte>, arr: seq<Arrival>)
    requires |got| >= HEADER && forall a :: a in arr ==> a.Data? && a.octets != []
    ensures var p := Pump(got, arr);
            (p.outcome.Delivered? ==> |p.outcome.msg| > HEADER) && (p.outcome.Suspended? ==> p.rest == [])
    decreases Size(arr)
  {
    if Want(got) > 0 && arr != [] {
      assert arr[0] in arr;
      var more, rest := Read(got, arr), Unread(got, arr);
      if LengthField(more) != |more| {
        LongPump(more, rest);
      }
    }
  }

  /** With octets of a broken connection still in the fragment, the next connection's HELLO is lost. */
  lemma StaleLosesHello(got: seq<byte>)
    requires got != [] && Framed(got) && !Whole(got)
    ensures Serve(got, [Data(HELLO)]).msgs != [HELLO]
  {
    var arr := [Data(HELLO)];
    var p := Pump(got, arr);
    WantPositive(got, got);
    if |got| >= HEADER {
      LongPump(got, arr);
    } else {
      var more, rest := Read(got, arr), Unread(got, arr);
      assert more[|got|] == 1 && HELLO[|got|] != 1;
      if LengthField(more) != |more| {
        assert forall a :: a in rest ==> a.Data? && a.octets != [];
        LongPump(more, rest);
        assert p == Pump(more, rest);
      }
    }
    if p.outcome.Delivered? {
      assert p.outcome.msg != HELLO && Serve(got, arr).msgs[0] == p.outcome.msg;
    }
  }

  /** A read error other than EAGAIN keeps the fragment. The next connection is framed right, whatever it
      carries and however it arrives, if and only if the fragment holds no octets. */
  lemma NextConnectionFramedIff(got: seq<byte>)
    requires Framed(got) && !Whole(got)
    ensures (forall arr :: Quiet(arr) && Framed(Stream(arr)) ==> Serve(got, arr).msgs == Messages(Stream(arr)))
            <==> got == []
  {
    if got == [] {
      forall arr | Quiet(arr) && Framed(Stream(arr))
        ensures Serve(got, arr).msgs == Messages(Stream(arr))
      {
        assert [] + Stream(arr) == Stream(arr);
        ServeFrames([], arr);
      }
    } else {
      var arr := [Data(HELLO)];
      assert Stream(arr) == HELLO && Quiet(arr);
      assert Messages(HELLO) == [HELLO[..8]] + Messages(HELLO[8..]) == [HELLO];
      StaleLosesHello(got);
      assert Serve(got, arr).msgs != Messages(Stream(arr));
    }
  }

  /** Pump unfolded where nothing is read. */
  lemma PumpIdle(got: seq<byte>, arr: seq<Arrival>)
    ensures Want(got) <= 0 ==> Pump(got, arr) == Pumped(Malformed, got, arr)
    ensures Want(got) > 0 && arr == [] ==> Pump(got, arr) == Pumped(Suspended, got, [])
    ensures Want(got) > 0 && arr != [] && !(arr[0].Data? && arr[0].octets != []) ==>
              Pump(got, arr) == Pumped(match arr[0] case Refused => Reconnecting case Broken => Failed
                                                    case Eof => Closed case _ => Suspended, got, arr[1..])
  {
  }

  lemma PumpRead(got: seq<byte>, arr: seq<Arrival>)
    requires Want(got) > 0 && arr != [] && arr[0].Data? && arr[0].octets != []
    ensures var more := Read(got, arr);
            Pump(got, arr) == if LengthField(more) == |more|
                              then Pumped(Delivered(Memory.Resized(more, MemLen(got))), [], Unread(got, arr))
                              else Pump(more, Unread(got, arr))
    ensures MemLen(got) <= MemLen(Read(got, arr))
  {
  }

  // ---- the session ----------------------------------------------------------------------------

  datatype Errno = Success | EAGAIN | ECONNREFUSED | OtherError

  class Socket {
    var arrivals: seq<Arrival>

    constructor (arrivals: seq<Arrival>)
      ensures this.arrivals == arrivals
    {
      this.arrivals := arrivals;
    }

    /** read(2) on a non-blocking socket: up to n octets to the offset at. */
    method Read(dst: array<byte>, at: nat, n: nat) returns (rc: int, errno: Errno)
      requires n > 0 && at + n <= dst.Length
      modifies this, dst
      ensures rc <= 0 ==> arrivals == if old(arrivals) == [] then [] else old(arrivals)[1..]
      ensures rc <= 0 ==> forall j :: 0 <= j < dst.Length ==> dst[j] == old(dst[j])
      ensures rc == 0 <==> old(arrivals) != [] && old(arrivals)[0].Eof?
      ensures rc > 0 <==> old(arrivals) != [] && old(arrivals)[0].Data? && old(arrivals)[0].octets != []
      ensures rc < 0 ==> (errno == ECONNREFUSED <==> old(arrivals) != [] && old(arrivals)[0].Refused?)
      ensures rc < 0 ==> (errno == OtherError <==> old(arrivals) != [] && old(arrivals)[0].Broken?)
      ensures rc < 0 ==> errno != Success
      ensures rc > 0 ==> rc == Least(|old(arrivals)[0].octets|, n) && arrivals == After(old(arrivals), rc)
      ensures rc > 0 ==> forall j :: at <= j < at + rc ==> dst[j] == old(arrivals)[0].octets[j - at]
      ensures rc > 0 ==> forall j :: 0 <= j < dst.Length && !(at <= j < at + rc) ==> dst[j] == old(dst[j])
    {
      if arrivals == [] {
        return -1, EAGAIN;
      }
      var a := arrivals[0];
      if !a.Data? || a.octets == [] {
        arrivals := arrivals[1..];
        return if a.Eof? then 0 else -1,
               if a.Refused? then ECONNREFUSED else if a.Broken? then OtherError else EAGAIN;
      }
      var k := Least(|a.octets|, n);
      for i := 0 to k
        invariant arrivals == old(arrivals)
        invariant forall j :: at <= j < at + i ==> dst[j] == a.octets[j - at]
        invariant forall j :: 0 <= j < dst.Length && !(at <= j < at + i) ==> dst[j] == old(dst[j])
      {
        dst[at + i] := a.octets[i];
      }
      arrivals := After(arrivals, k);
      return k, Success;
    }
  }

  /** mem holds got, and zeros behind it. */
  ghost predicate Holds(mem: Memory.Cmemory, got: seq<byte>)
    reads mem, mem.buf
  {
    mem.Valid() && HEADER <= mem.len && |got| <= mem.len && mem.Octets() == Memory.Resized(got, mem.len)
  }

  class Session {
    var fragment: Memory.Cmemory?
    var msgBytesRead: nat
    // the messages handed to handle_message so far
    var inbox: seq<seq<byte>>

    /** The octets of the unfinished message. */
    ghost function Got(): seq<byte>
      reads this, fragment, if fragment == null then {} else {fragment.buf}
    {
      if fragment == null || msgBytesRead > fragment.len || fragment.len > fragment.buf.Length then []
      else fragment.buf[..msgBytesRead]
    }

    ghost predicate Valid()
      reads this, fragment, if fragment == null then {} else {fragment.buf}
    {
      fragment != null ==> msgBytesRead <= fragment.len && Holds(fragment, Got()) && fragment.len == MemLen(Got())
    }

    constructor ()
      ensures Valid() && fragment == null && Got() == [] && inbox == []
    {
      fragment, msgBytesRead, inbox := null, 0, [];
    }

    /** Makes room for the message the header declares, and says how long it is. */
    method Prepare(mem: Memory.Cmemory, ghost got: seq<byte>) returns (msgLen: int)
      requires Holds(mem, got) && mem.len <= MemLen(got) && |got| == msgBytesRead
      modifies mem
      ensures Holds(mem, got) && mem.len == MemLen(got) && (mem.buf == old(mem.buf) || fresh(mem.buf))
      ensures msgLen - msgBytesRead == Want(got)
    {
      if msgBytesRead < HEADER {
        msgLen := HEADER;
      } else {
        HoldsField(mem, got);
        msgLen := mem.buf[2] as int * 0x100 + mem.buf[3] as int;
        assert U16(got, 2) == msgLen by {
          assert got[2] == mem.Octets()[2] && got[3] == mem.Octets()[3];
        }
      }
      if mem.len < msgLen {
        mem.Resize(msgLen);
        assert mem.Octets() == Memory.Resized(got, msgLen);
      }
    }

    /** One read behind the octets got so far. */
    method Receive(sock: Socket, mem: Memory.Cmemory, want: int, ghost got: seq<byte>) returns (rc: int, errno: Errno)
      requires Holds(mem, got) && |got| == msgBytesRead && mem.len == MemLen(got) && want == Want(got) > 0
      modifies sock, mem.buf
      ensures rc > 0 <==> old(sock.arrivals) != [] && old(sock.arrivals)[0].Data? && old(sock.arrivals)[0].octets != []
      ensures rc == 0 <==> old(sock.arrivals) != [] && old(sock.arrivals)[0].Eof?
      ensures rc < 0 ==> (errno == ECONNREFUSED <==> old(sock.arrivals) != [] && old(sock.arrivals)[0].Refused?)
      ensures rc < 0 ==> (errno == OtherError <==> old(sock.arrivals) != [] && old(sock.arrivals)[0].Broken?)
      ensures rc < 0 ==> errno != Success
      ensures rc <= 0 ==> sock.arrivals == if old(sock.arrivals) == [] then [] else old(sock.arrivals)[1..]
      ensures rc <= 0 ==> Holds(mem, got)
      ensures rc > 0 ==> sock.arrivals == Unread(got, old(sock.arrivals)) && Holds(mem, Read(got, old(sock.arrivals)))
      ensures rc > 0 ==> |Read(got, old(sock.arrivals))| == msgBytesRead + rc
    {
      ghost var was := mem.Octets();
      ghost var arr := sock.arrivals;
      rc, errno := sock.Read(mem.buf, msgBytesRead, want);
      hide Unread, After, Want, MemLen;
      if rc > 0 {
        ghost var more := Read(got, arr);
        assert forall j :: 0 <= j < mem.len ==> mem.Octets()[j] == if j < |more| then more[j] else 0;
        assert mem.Octets() == Memory.Resized(more, mem.len);
      } else {
        assert mem.Octets() == was;
      }
    }

    /** If there is a fragment and it is mem, it is fit to go on with. */
    lemma Settle(mem: Memory.Cmemory, got: seq<byte>)
      requires Holds(mem, got) && |got| == msgBytesRead && (fragment == mem ==> mem.len == MemLen(got))
      ensures fragment == null ==> Valid() && Got() == []
      ensures fragment == mem ==> Valid() && Got() == got
    {
      HoldsGot(mem, got);
    }

    /** Reads until the message is whole or the socket has nothing more to say. */
    method ReadMessage(sock: Socket, mem: Memory.Cmemory, ghost start: seq<byte>) returns (outcome: Outcome)
      requires Holds(mem, start) && |start| == msgBytesRead && mem.len <= MemLen(start)
      modifies this`msgBytesRead, sock, mem, mem.buf
      ensures mem.buf == old(mem.buf) || fresh(mem.buf)
      ensures var p := Pump(start, old(sock.arrivals));
              && outcome == p.outcome && sock.arrivals == p.rest
              && (!outcome.Delivered? ==> Holds(mem, p.got) && |p.got| == msgBytesRead && mem.len == MemLen(p.got))
    {
      ghost var got := start;
      hide Holds, Want, MemLen, Unread, Read, LengthField, Size, Pump;
      while true
        invariant mem.buf == old(mem.buf) || fresh(mem.buf)
        invariant |got| == msgBytesRead && Holds(mem, got) && mem.len <= MemLen(got)
        invariant Pump(got, sock.arrivals) == Pump(start, old(sock.arrivals))
        decreases Size(sock.arrivals)
      {
        var msgLen := Prepare(mem, got);
        PumpIdle(got, sock.arrivals);
        if msgLen <= msgBytesRead {
          // the size asked of read would wrap around
          return Malformed;
        }
        ghost var arr := sock.arrivals;
        var rc, errno := Receive(sock, mem, msgLen - msgBytesRead, got);
        if rc < 0 {
          return if errno == EAGAIN then Suspended else if errno == ECONNREFUSED then Reconnecting else Failed;
        } else if rc == 0 {
          return Closed;
        }
        PumpRead(got, arr);
        got := Read(got, arr);
        msgBytesRead := msgBytesRead + rc;
        HoldsField(mem, got);
        if mem.buf[2] as int * 0x100 + mem.buf[3] as int == msgBytesRead {
          HoldsAll(mem, got);
          return Delivered(mem.buf[..mem.len]);
        }
      }
    }

    /** EAGAIN keeps the buffer for the next call, a close drops it; any other error leaves the fragment
        as it was. */
    method HandleRead(sock: Socket) returns (outcome: Outcome)
      requires Valid()
      modifies this, sock, fragment, if fragment == null then {} else {fragment.buf}
      ensures Valid()
      ensures var p := Pump(old(Got()), old(sock.arrivals));
              && outcome == p.outcome && sock.arrivals == p.rest
              && (outcome.Suspended? ==> fragment != null && Got() == p.got)
              && (outcome.Delivered? || outcome.Closed? ==> fragment == null)
              && (outcome.Failed? || outcome.Reconnecting? ==>
                    fragment == old(fragment) && (fragment != null ==> Got() == p.got))
      ensures inbox == old(inbox) + if outcome.Delivered? then [outcome.msg] else []
    {
      hide Pump;
      var mem: Memory.Cmemory;
      if fragment == null {
        mem := new Memory.Cmemory(HEADER);
        msgBytesRead := 0;
      } else {
        mem := fragment;
      }
      ghost var p := Pump(Got(), sock.arrivals);
      outcome := ReadMessage(sock, mem, Got());
      if outcome.Delivered? || outcome.Closed? {
        fragment := null;
      } else if outcome.Suspended? {
        fragment := mem;
      }
      if outcome.Delivered? {
        inbox := inbox + [outcome.msg];
      } else {
        Settle(mem, p.got);
      }
    }
  }

  /** What the length field of the buffer reads as. */
  lemma HoldsField(mem: Memory.Cmemory, got: seq<byte>)
    requires Holds(mem, got)
    ensures mem.len <= mem.buf.Length && HEADER <= mem.len
    ensures mem.buf[2] as int * 0x100 + mem.buf[3] as int == LengthField(got)
  {
    assert mem.buf[2] == mem.Octets()[2] && mem.buf[3] == mem.Octets()[3];
    var z := Memory.Resized(got, MemLen(got));
    assert z[2] == mem.Octets()[2] && z[3] == mem.Octets()[3];
  }

  lemma HoldsAll(mem: Memory.Cmemory, got: seq<byte>)
    requires Holds(mem, got)
    ensures mem.len <= mem.buf.Length && mem.buf[..mem.len] == Memory.Resized(got, mem.len)
  {
  }

  lemma HoldsGot(mem: Memory.Cmemory, got: seq<byte>)
    requires Holds(mem, got)
    ensures mem.len <= mem.buf.Length && |got| <= mem.len && mem.buf[..|got|] == got
  {
    forall i | 0 <= i < |got| ensures mem.buf[i] == got[i] {
      assert mem.buf[i] == mem.Octets()[i];
    }
  }
}
