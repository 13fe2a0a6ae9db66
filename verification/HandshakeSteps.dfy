/** What single inputs do to a session, and what the inputs of a run tell of its HELLO flags by themselves. */
module HandshakeSteps {
  import opened Handshake
  import Transactions

  // ---- the HELLO flags ----------------------------------------------------------------------------

  predicate Spoken(of10: bool, of12: bool, version: int) {
    (version == 1 && of10) || (version == 3 && of12)
  }

  /** The connection is over: it was closed, or a HELLO named a version that is not spoken. */
  predicate Hangs(i: Input, of10: bool, of12: bool) {
    i.Close? || (i.Receive? && i.m.Hello? && i.m.good && !Spoken(of10, of12, i.m.version))
  }

  /** A HELLO went out on the connection that is up. */
  predicate Greeted(inputs: seq<Input>, of10: bool, of12: bool) {
    inputs != []
    && var i := inputs[|inputs| - 1];
       if Hangs(i, of10, of12) then false else i.HelloTimer? || Greeted(inputs[..|inputs| - 1], of10, of12)
  }

  /** A HELLO came in on the connection that is up. */
  predicate Heard(inputs: seq<Input>, of10: bool, of12: bool) {
    inputs != []
    && var i := inputs[|inputs| - 1];
       if Hangs(i, of10, of12) then false
       else (i.Receive? && i.m.Hello? && i.m.good) || Heard(inputs[..|inputs| - 1], of10, of12)
  }

  lemma RequestFlags(d: Dpt, kind: int)
    ensures var e := Request(d, kind); SameSupport(d, e) && e.helloSent == d.helloSent && e.helloRcvd == d.helloRcvd
    ensures Request(d, kind).log == d.log + if d.helloRcvd then [Requested(kind)] else []
  {
    hide Transactions.Step;
  }

  lemma HelloFlags(d: Dpt, version: int)
    ensures var e := HelloRcvd(d, version);
            && SameSupport(d, e)
            && e.helloSent == (Spoken(d.of10, d.of12, version) && d.helloSent)
            && e.helloRcvd == Spoken(d.of10, d.of12, version)
    ensures var e := SendHello(d); SameSupport(d, e) && e.helloSent && e.helloRcvd == d.helloRcvd
  {
    hide Transactions.Step, Request;
    if Supports(d, version) {
      RequestFlags(Tell(d.(version := version, helloRcvd := true, state := WaitFeatures), HelloAccepted(version)), 5);
    }
    var r := Tell(d.(ta := Transactions.Step(d.ta, Transactions.Async), helloSent := true), HelloSent);
    RequestFlags(r, 5);
    RequestFlags(Request(r, 5), 2);
  }

  /** What an input does to the flags. */
  lemma StepFlags(d: Dpt, i: Input)
    ensures var e := Step(d, i);
            && SameSupport(d, e)
            && e.helloSent == (if Hangs(i, d.of10, d.of12) then false else i.HelloTimer? || d.helloSent)
            && e.helloRcvd == (if Hangs(i, d.of10, d.of12) then false
                               else (i.Receive? && i.m.Hello? && i.m.good) || d.helloRcvd)
  {
    hide Transactions.Step, Request, HelloRcvd, SendHello;
    match i {
      case HelloTimer => HelloFlags(d, 1);
      case Receive(m) =>
        if m.Hello? {
          HelloFlags(d, m.version);
        } else {
          ReplyFlags(d, m);
        }
      case Send(kind) => RequestFlags(d, kind);
      case _ =>
    }
  }

  lemma ReplyFlags(d: Dpt, m: Message)
    requires !m.Hello?
    ensures var e := HandleMessage(d, m);
            SameSupport(d, e) && e.helloSent == d.helloSent && e.helloRcvd == d.helloRcvd
  {
    NeutralMessage(d, m);
  }

  lemma {:induction false} RunFlags(d: Dpt, inputs: seq<Input>, before: seq<Input>)
    requires d.helloSent == Greeted(before, d.of10, d.of12) && d.helloRcvd == Heard(before, d.of10, d.of12)
    ensures var e := Run(d, inputs);
            && SameSupport(d, e)
            && e.helloSent == Greeted(before + inputs, d.of10, d.of12)
            && e.helloRcvd == Heard(before + inputs, d.of10, d.of12)
    decreases |inputs|
  {
    hide Step, Hangs;
    if inputs == [] {
      assert before + [] == before;
    } else {
      StepFlags(d, inputs[0]);
      assert (before + [inputs[0]])[..|before|] == before;
      RunFlags(Step(d, inputs[0]), inputs[1..], before + [inputs[0]]);
      assert before + [inputs[0]] + inputs[1..] == before + inputs;
    }
  }

  /** In every run the two flags say what the inputs tell: whether a HELLO went out, and whether one came in, on the
      connection that is up. A request of the application's goes out if and only if one came in. */
  lemma FlagsAsTold(start: Xid, version: Version, of10: bool, of12: bool, active: bool, inputs: seq<Input>, kind: int)
    ensures var d := Run(New(start, version, of10, of12, active), inputs);
            && d.helloSent == Greeted(inputs, of10, of12) && d.helloRcvd == Heard(inputs, of10, of12)
            && Step(d, Send(kind)).log == d.log + if Heard(inputs, of10, of12) then [Requested(kind)] else []
  {
    RunFlags(New(start, version, of10, of12, active), inputs, []);
    assert [] + inputs == inputs;
    RequestFlags(Run(New(start, version, of10, of12, active), inputs), kind);
  }

  /** What came into the log from d to e holds no request, unless e has heard a HELLO. */
  predicate NoneUnheard(d: Dpt, e: Dpt) {
    |d.log| <= |e.log| && forall k :: |d.log| <= k < |e.log| && e.log[k].Requested? ==> e.helloRcvd
  }

  lemma TellUnheard(d: Dpt, r: Dpt, e: Effect)
    requires NoneUnheard(d, r) && !e.Requested?
    ensures NoneUnheard(d, Tell(r, e)) && forall s: FsmState :: NoneUnheard(d, r.(state := s))
  {
  }

  lemma RequestUnheard(d: Dpt, r: Dpt, kind: int)
    requires NoneUnheard(d, r)
    ensures NoneUnheard(d, Request(r, kind)) && forall s: FsmState :: NoneUnheard(d, Request(r, kind).(state := s))
  {
    RequestFlags(r, kind);
  }

  lemma RepliesUnheard(d: Dpt, r: Dpt, q: Quality)
    requires NoneUnheard(d, r)
    ensures !q.BadSyntax? ==> NoneUnheard(d, FeaturesReplyRcvd(r, q))
    ensures NoneUnheard(d, GetConfigReplyRcvd(r)) && NoneUnheard(d, StatsReplyRcvd(r))
  {
    hide NoneUnheard, Tell, Request;
    TellUnheard(d, r, FeaturesDone);
    RequestUnheard(d, Tell(r, FeaturesDone), 7);
    TellUnheard(d, r, GetConfigDone);
    RequestUnheard(d, Tell(r, GetConfigDone), StatsRequest(r.version));
    assert forall x: FsmState :: NoneUnheard(d, r.(state := x));
    TellUnheard(d, r.(state := Disconnected), DptClose);
    TellUnheard(d, Tell(r, GetConfigDone), DptOpen);
    TellAfterState(d, Tell(r, GetConfigDone));
    TellUnheard(d, r, StatsDone);
    TellAfterState(d, Tell(r, StatsDone));
  }

  lemma TellAfterState(d: Dpt, r: Dpt)
    requires NoneUnheard(d, r)
    ensures NoneUnheard(d, Tell(r.(state := Connected), DptOpen))
  {
  }

  lemma HelloUnheard(d: Dpt, version: int)
    ensures NoneUnheard(d, HelloRcvd(d, version)) && NoneUnheard(d, SendHello(d))
  {
    hide Transactions.Step, Request;
    if Supports(d, version) {
      RequestFlags(Tell(d.(version := version, helloRcvd := true, state := WaitFeatures), HelloAccepted(version)), 5);
    }
    var r := Tell(d.(ta := Transactions.Step(d.ta, Transactions.Async), helloSent := true), HelloSent);
    RequestFlags(r, 5);
    RequestFlags(Request(r, 5), 2);
  }

  /** Whatever the input, no request goes out unless a HELLO has come in on the connection that is up. */
  lemma NothingBeforeHello(d: Dpt, i: Input)
    ensures var e := Step(d, i);
            |d.log| <= |e.log| && forall k :: |d.log| <= k < |e.log| && e.log[k].Requested? ==> e.helloRcvd
  {
    hide Transactions.Step, Answers, Request, FeaturesReplyRcvd, GetConfigReplyRcvd, StatsReplyRcvd, HelloRcvd;
    hide SendHello;
    match i {
      case HelloTimer => HelloUnheard(d, 1);
      case Receive(m) =>
        if m.Hello? {
          HelloUnheard(d, m.version);
        } else if Steers(m) {
          RepliesUnheard(d, Validate(d, m.xid, Asked(d, m)), if m.FeaturesReply? then m.quality else Good);
        }
      case Send(kind) => RequestUnheard(d, d, kind);
      case _ =>
    }
  }

  // ---- the states ---------------------------------------------------------------------------------

  /** The message is a reply, in the version spoken, to a request of this type that is in the table. */
  predicate Replies(d: Dpt, xid: Xid, kind: int) {
    d.helloRcvd && xid in d.ta.pending && d.ta.pending[xid] == kind
  }

  /** Where an input takes the state machine. */
  predicate GoesTo(d: Dpt, i: Input, s: FsmState) {
    match i
    case Receive(m) =>
      (match m
       case Hello(version, good) =>
         s == if !good then d.state else if Spoken(d.of10, d.of12, version) then WaitFeatures else Disconnected
       case FeaturesReply(xid, q) =>
         s == if !Replies(d, xid, 5) || q == BadSyntax then d.state
              else if q == BadPort then Disconnected
              else if d.state == WaitFeatures then WaitGetConfig else d.state
       case GetConfigReply(xid, good) =>
         s == if !Replies(d, xid, 7) || !good || d.state != WaitGetConfig then d.state
              else if d.version == 1 then Connected else WaitTableStats
       case StatsReply(xid, good) =>
         s == if !Replies(d, xid, if d.version == 1 then 16 else 18) || !good || d.state != WaitTableStats then d.state
              else Connected
       case _ => s == d.state)
    case EchoTimeout => s == Disconnected
    case Refused => s == Disconnected
    case _ => s == d.state
  }

  lemma AnswersIs(d: Dpt, xid: Xid, kind: int)
    requires kind != 0 && d.helloRcvd
    ensures Answers(d, xid, kind) <==> Replies(d, xid, kind)
    ensures var r := Validate(d, xid, kind); r.state == d.state && r.version == d.version
  {
  }

  lemma RequestState(d: Dpt, kind: int)
    ensures Request(d, kind).state == d.state
  {
  }

  lemma HandledState(r: Dpt, q: Quality)
    ensures !q.BadSyntax? ==>
              FeaturesReplyRcvd(r, q).state == if q == BadPort then Disconnected
                                               else if r.state == WaitFeatures then WaitGetConfig else r.state
    ensures GetConfigReplyRcvd(r).state == if r.state != WaitGetConfig then r.state
                                           else if r.version == 1 then Connected else WaitTableStats
    ensures StatsReplyRcvd(r).state == if r.state != WaitTableStats then r.state else Connected
  {
    hide Request;
  }

  lemma MessageGoesTo(d: Dpt, m: Message)
    requires !m.Hello?
    ensures GoesTo(d, Receive(m), HandleMessage(d, m).state)
  {
    hide Transactions.Step, Answers, Validate, Request, FeaturesReplyRcvd, GetConfigReplyRcvd, StatsReplyRcvd, Replies;
    if !d.helloRcvd {
      RepliesNeedsHello(d);
    } else if Steers(m) {
      AnswersIs(d, m.xid, Asked(d, m));
      HandledState(Validate(d, m.xid, Asked(d, m)), if m.FeaturesReply? then m.quality else Good);
    } else if m.OtherReply? {
      ValidateState(d, m.xid, OtherRequest(d.version, m.to));
    }
  }

  lemma ValidateState(d: Dpt, xid: Xid, kind: int)
    ensures Validate(d, xid, kind).state == d.state
  {
  }

  lemma RepliesNeedsHello(d: Dpt)
    ensures !d.helloRcvd ==> forall xid: Xid, kind: int :: !Replies(d, xid, kind)
  {
  }

  /** The state machine, transition by transition, in the numbers of the standard: a HELLO, an echo timeout and a
      refused reconnection move it from any state, a reply only if it answers a request that is in the table and
      is well formed, and the end of the connection does not move it at all. */
  lemma Transitions(d: Dpt, i: Input)
    ensures GoesTo(d, i, Step(d, i).state)
  {
    hide Transactions.Step, Request, Replies;
    if i.Receive? && !i.m.Hello? {
      MessageGoesTo(d, i.m);
    } else if i.HelloTimer? {
      var r := Tell(d.(ta := Transactions.Step(d.ta, Transactions.Async), helloSent := true), HelloSent);
      RequestState(r, 5);
      RequestState(Request(r, 5), 2);
    } else if i.Send? {
      RequestState(d, i.kind);
    } else if i.Receive? && i.m.good && Supports(d, i.m.version) {
      RequestState(Tell(d.(version := i.m.version, helloRcvd := true, state := WaitFeatures),
                        HelloAccepted(i.m.version)), 5);
    }
  }

  /** What an input has the session do that others notice. */
  function Does(d: Dpt, i: Input): seq<Effect> {
    var over := if d.active then Reconnect else DptClose;
    match i
    case HelloTimer => [HelloSent] + if d.helloRcvd then [Requested(5), Requested(2)] else []
    case Receive(m) =>
      (match m
       case Hello(version, good) =>
         if !good then []
         else if !Spoken(d.of10, d.of12, version) then [HelloRefused, over]
         else [HelloAccepted(version)] + if d.helloSent then [Requested(5)] else []
       case FeaturesReply(xid, q) =>
         if !Replies(d, xid, 5) || q == BadSyntax then []
         else if q == BadPort then [DptClose]
         else [FeaturesDone] + if d.state == WaitFeatures then [Requested(7)] else []
       case GetConfigReply(xid, good) =>
         if !Replies(d, xid, 7) || !good then []
         else [GetConfigDone] + if d.state != WaitGetConfig then []
                                else if d.version == 1 then [DptOpen] else [Requested(18)]
       case StatsReply(xid, good) =>
         if !Replies(d, xid, if d.version == 1 then 16 else 18) || !good then []
         else [StatsDone] + if d.state == WaitTableStats then [DptOpen] else []
       case _ => [])
    case Close => [over]
    case EchoTimeout => (if d.active then [Reconnect] else []) + [DptClose]
    case Refused => [Reconnect]
    case Send(kind) => if d.helloRcvd then [Requested(kind)] else []
    case Elsewhere(_) => []
  }

  lemma HandledDoes(r: Dpt, q: Quality)
    requires r.helloRcvd
    ensures !q.BadSyntax? ==>
              FeaturesReplyRcvd(r, q).log ==
              r.log + if q == BadPort then [DptClose]
                      else [FeaturesDone] + if r.state == WaitFeatures then [Requested(7)] else []
    ensures GetConfigReplyRcvd(r).log ==
            r.log + ([GetConfigDone] + if r.state != WaitGetConfig then []
                                       else if r.version == 1 then [DptOpen] else [Requested(18)])
    ensures StatsReplyRcvd(r).log == r.log + ([StatsDone] + if r.state == WaitTableStats then [DptOpen] else [])
  {
    hide Request;
    RequestFlags(Tell(r, FeaturesDone), 7);
    RequestFlags(Tell(r, GetConfigDone), StatsRequest(r.version));
  }

  lemma ReplyDoes(d: Dpt, m: Message)
    requires Steers(m) && d.helloRcvd
    ensures HandleMessage(d, m).log == d.log + Does(d, Receive(m))
  {
    hide Answers, Validate, FeaturesReplyRcvd, GetConfigReplyRcvd, StatsReplyRcvd, Replies;
    AnswersIs(d, m.xid, Asked(d, m));
    ValidateKeeps(d, m.xid, Asked(d, m));
    HandledDoes(Validate(d, m.xid, Asked(d, m)), if m.FeaturesReply? then m.quality else Good);
  }

  lemma MessageDoes(d: Dpt, m: Message)
    requires !m.Hello?
    ensures HandleMessage(d, m).log == d.log + Does(d, Receive(m))
  {
    if !d.helloRcvd {
      hide Replies;
      RepliesNeedsHello(d);
    } else if Steers(m) {
      ReplyDoes(d, m);
    } else if m.OtherReply? {
      ValidateKeeps(d, m.xid, OtherRequest(d.version, m.to));
    }
  }

  lemma ValidateKeeps(d: Dpt, xid: Xid, kind: int)
    ensures var r := Validate(d, xid, kind); r == d.(ta := r.ta)
  {
  }

  lemma HelloDoes(d: Dpt, version: int)
    ensures SendHello(d).log == d.log + Does(d, HelloTimer)
    ensures HelloRcvd(d, version).log == d.log + Does(d, Receive(Hello(version, true)))
  {
    hide Transactions.Step, Request;
    var r := Tell(d.(ta := Transactions.Step(d.ta, Transactions.Async), helloSent := true), HelloSent);
    RequestFlags(r, 5);
    RequestFlags(Request(r, 5), 2);
    if Supports(d, version) {
      RequestFlags(Tell(d.(version := version, helloRcvd := true, state := WaitFeatures), HelloAccepted(version)), 5);
    }
  }

  /** What a session does is what is said above of each input, and no more: requests in the numbers of the standard and
      only once a HELLO has come in, and at the end of a connection a reconnection by a session that connects by
      itself, or a report to the application. */
  lemma Outputs(d: Dpt, i: Input)
    ensures Step(d, i).log == d.log + Does(d, i)
  {
    hide Transactions.Step, Request, Replies, SendHello, HelloRcvd;
    if i.Receive? && !i.m.Hello? {
      MessageDoes(d, i.m);
    } else if i.HelloTimer? || i.Receive? {
      HelloDoes(d, if i.Receive? then i.m.version else 1);
    } else if i.Send? {
      RequestFlags(d, i.kind);
    }
  }

  // ---- replies that the state machine takes no notice of -----------------------------------------------

  /** The message type of the request: of 1.0 (section 5.1 of OpenFlow 1.0), which has no roles and no asynchronous
      configuration, or of 1.2. */
  function TypeOfRequest(version: int, o: Other): Transactions.Xid {
    match o
    case Barrier => if version == 1 then 18 else 20
    case QueueConfig => if version == 1 then 20 else 22
    case Role => if version == 1 then 0 else 24
    case AsyncConfig => if version == 1 then 0 else 26
  }

  /** Such a reply takes its request out of the table, if there is one of its type; it does nothing else, and in 1.0
      role and asynchronous configuration replies do nothing at all. */
  lemma OtherReplies(d: Dpt, xid: Xid, o: Other)
    ensures var e, kind := HandleMessage(d, OtherReply(xid, o)), TypeOfRequest(d.version, o);
            && e == d.(ta := e.ta) && e.ta.start == d.ta.start
            && (kind == 0 || !d.helloRcvd ==> e == d)
            && (kind != 0 && d.helloRcvd ==>
                  if Replies(d, xid, kind) then e.ta.pending == d.ta.pending - {xid}
                                                && e.ta.accepted == d.ta.accepted + multiset{xid}
                  else e.ta.pending == (if xid in d.ta.pending then d.ta.pending else d.ta.pending[xid := 0])
                       && e.ta.accepted == d.ta.accepted)
  {
    var kind := TypeOfRequest(d.version, o);
    hide Validate;
    if kind != 0 && d.helloRcvd {
      Validating(d, xid, kind);
    }
  }

  lemma Validating(d: Dpt, xid: Xid, kind: int)
    requires kind != 0 && d.helloRcvd
    ensures var e := Validate(d, xid, kind);
            && e == d.(ta := e.ta) && e.ta.start == d.ta.start
            && if Replies(d, xid, kind) then e.ta.pending == d.ta.pending - {xid}
                                             && e.ta.accepted == d.ta.accepted + multiset{xid}
               else e.ta.pending == (if xid in d.ta.pending then d.ta.pending else d.ta.pending[xid := 0])
                    && e.ta.accepted == d.ta.accepted
  {
  }

  // ---- the handshake with the HELLOs in the other order -----------------------------------------------

  /** The other side's HELLO comes before the own one goes out, and the replies bear the identifiers of the requests:
      the own HELLO takes one identifier, FEATURES and ECHO the next two. */
  function HeardFirst(start: Xid, version: int): seq<Input> {
    var f := Transactions.Succ(Transactions.Succ(start));
    var g := Transactions.Succ(Transactions.Succ(f));
    [Receive(Hello(version, true)), HelloTimer, Receive(FeaturesReply(f, Good)), Receive(GetConfigReply(g, true))]
    + if version == OFP10 then [] else [Receive(StatsReply(Transactions.Succ(g), true))]
  }

  lemma HelloThenTimer(d: Dpt, version: int)
    requires Supports(d, version) && !d.helloSent
    ensures var e := Step(Step(d, Receive(Hello(version, true))), HelloTimer);
            var x := Transactions.Succ(Transactions.Succ(d.ta.start));
            && e.state.WaitFeatures? && e.version == version && e.helloRcvd
            && x in e.ta.pending && e.ta.pending[x] == 5 && e.ta.start == Transactions.Succ(x)
            && e.log == d.log + [HelloAccepted(version), HelloSent, Requested(5), Requested(2)]
  {
    NextDiffers(Transactions.Succ(Transactions.Succ(d.ta.start)));
    hide Transactions.Succ;
  }

  lemma NextDiffers(x: Xid)
    ensures Transactions.Succ(x) != x
  {
  }

  lemma FeaturesAnswered(d: Dpt, xid: Xid)
    requires d.helloRcvd && d.state.WaitFeatures? && xid in d.ta.pending && d.ta.pending[xid] == 5
    ensures var e := Step(d, Receive(FeaturesReply(xid, Good)));
            e.version == d.version && Asking(d, e, FeaturesDone, 7, WaitGetConfig)
  {
    hide FeaturesReplyRcvd, Asking;
    var r := Validate(d, xid, 5);
    assert r == d.(ta := r.ta) && r.ta.start == d.ta.start;
    HandlersGoOn(d, r);
  }

  /** The first four inputs, and what is left to do. */
  lemma HeardFour(d: Dpt, version: int) returns (d3: Dpt, d4: Dpt)
    requires Supports(d, version) && !d.helloSent
    ensures d3.log == d.log
                      + [HelloAccepted(version), HelloSent, Requested(5), Requested(2), FeaturesDone, Requested(7)]
    ensures version == OFP10 ==> d4.state.Connected? && d4.log == d3.log + [GetConfigDone, DptOpen]
    ensures version == OFP12 ==> d4.state.WaitTableStats? && d4.version == version && Asks(d4, 18)
                                 && d4.log == d3.log + [GetConfigDone, Requested(18)]
    ensures Run(d, HeardFirst(d.ta.start, version)) ==
            if version == OFP10 then d4 else Step(d4, Receive(StatsReply(d4.ta.start, true)))
  {
    var ins := HeardFirst(d.ta.start, version);
    var d1 := Step(d, ins[0]);
    var d2 := Step(d1, ins[1]);
    d3 := Step(d2, ins[2]);
    d4 := Step(d3, ins[3]);
    assert StatsRequest(OFP12) == 18;
    hide Step, Request, Validate, Answers, Transactions.Succ, StatsRequest, Run, Supports;
    HelloThenTimer(d, version);
    FeaturesAnswered(d2, ins[2].m.xid);
    GoodReply(d3, ins[3].m);
    RunThree(d, ins);
    RunOne(d3, ins[3], ins[4..]);
    assert ins[3..] == [ins[3]] + ins[4..];
    RunNone(d4);
    if version == OFP10 {
      assert ins[4..] == [];
    } else {
      RunOne(d4, ins[4], []);
      RunNone(Step(d4, ins[4]));
      assert ins[4..] == [ins[4]] + [];
    }
  }

  /** From any state in which no HELLO is out, a handshake in which the other side's HELLO comes first ends with the
      session reported open, once, after exactly these steps: an ECHO request goes out with the one for FEATURES. */
  lemma HandshakeCompletesHeardFirst(d: Dpt, version: int)
    requires Supports(d, version) && !d.helloSent
    ensures var e := Run(d, HeardFirst(d.ta.start, version));
            && e.state.Connected?
            && e.log == d.log + [HelloAccepted(version), HelloSent, Requested(5), Requested(2), FeaturesDone,
                                 Requested(7), GetConfigDone]
                        + (if version == 1 then [] else [Requested(18), StatsDone]) + [DptOpen]
  {
    hide Run, Step, Asks, Transactions.Succ, HeardFirst;
    var d3, d4 := HeardFour(d, version);
    var before := d.log + [HelloAccepted(version), HelloSent, Requested(5), Requested(2), FeaturesDone, Requested(7)];
    if version == OFP10 {
      assert before + [GetConfigDone, DptOpen] == before + [GetConfigDone] + [] + [DptOpen];
    } else {
      GoodReply(d4, StatsReply(d4.ta.start, true));
    }
  }
}
