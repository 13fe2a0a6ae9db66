/** The session state machine of cofdptImpl: from the HELLO exchange to handle_dpt_open, for OpenFlow 1.0
    and 1.2 (section A.3.1 of OpenFlow 1.2). */
module Handshake {
  import Transactions

  type Xid = Transactions.Xid

  const OFP10: int := 1
  const OFP12: int := 3

  /** What a session speaks: it begins with the version it was made for and adopts those of HELLOs. */
  type Version = v: int | v == OFP10 || v == OFP12 witness OFP10

  const ECHO_REQUEST: int := 2
  const FEATURES_REQUEST: int := 5
  const GET_CONFIG_REQUEST: int := 7

  function StatsRequest(version: int): (kind: int)
    ensures kind != 0
  {
    if version == OFP10 then 16 else 18
  }

  datatype FsmState = Disconnected | WaitFeatures | WaitGetConfig | WaitTableStats | Connected

  /** What the session does that others notice. */
  datatype Effect =
    | HelloSent | HelloRefused | HelloAccepted(version: int)
    | Requested(kind: int)
    | FeaturesDone | GetConfigDone | StatsDone
    | DptOpen | DptClose | Reconnect

  /** of10 and of12: the versions the application supports. */
  datatype Dpt = Dpt(version: Version, of10: bool, of12: bool, helloSent: bool, helloRcvd: bool,
                     state: FsmState, active: bool, ta: Transactions.World, log: seq<Effect>)

  /** is_ofp_version_supported, for the two versions modelled. */
  predicate Supports(d: Dpt, version: int) {
    (version == OFP10 && d.of10) || (version == OFP12 && d.of12)
  }

  predicate SameSupport(d: Dpt, e: Dpt) {
    d.of10 == e.of10 && d.of12 == e.of12
  }

  /** How a message stands up to validation: well formed, bad syntax, or a malformed port inside. */
  datatype Quality = Good | BadSyntax | BadPort

  datatype Message =
    | Hello(version: int, good: bool)
    | FeaturesReply(xid: Xid, quality: Quality)
    | GetConfigReply(xid: Xid, good: bool)
    | StatsReply(xid: Xid, good: bool)
    | OtherReply(xid: Xid, to: Other)
    | Notice

  /** Requests whose replies the state machine takes no notice of. Everything that answers no request at all is
      a Notice: echoes, packets, events of flows and ports, experimenters, types that nobody knows. */
  datatype Other = Barrier | QueueConfig | Role | AsyncConfig

  /** The message type of such a request, where the version has one. */
  function OtherRequest(version: int, o: Other): (kind: int)
  {
    match o
    case Barrier => if version == OFP10 then 18 else 20
    case QueueConfig => if version == OFP10 then 20 else 22
    case Role => if version == OFP10 then 0 else 24
    case AsyncConfig => if version == OFP10 then 0 else 26
  }

  /** What can happen to a session: its HELLO timer, a message, the connection's end, the echo timeout, a
      refused reconnection, and requests that the application sends on this or on another session. */
  datatype Input =
    | HelloTimer | Receive(m: Message) | Close | EchoTimeout | Refused
    | Send(kind: int) | Elsewhere(op: Transactions.Op)

  // ---- the transitions ------------------------------------------------------------------------

  function Tell(d: Dpt, e: Effect): Dpt {
    d.(log := d.log + [e])
  }

  /** A request gets an identifier; it goes out only when a HELLO has been received. */
  function Request(d: Dpt, kind: int): Dpt {
    var r := d.(ta := Transactions.Step(d.ta, Transactions.Add(kind)));
    if d.helloRcvd then Tell(r, Requested(kind)) else r
  }

  function HandleClosed(d: Dpt): Dpt {
    Tell(d.(helloSent := false, helloRcvd := false), if d.active then Reconnect else DptClose)
  }

  function SendHello(d: Dpt): Dpt {
    var r := Tell(d.(ta := Transactions.Step(d.ta, Transactions.Async), helloSent := true), HelloSent);
    if d.helloRcvd then Request(Request(r, FEATURES_REQUEST), ECHO_REQUEST) else r
  }

  function HelloRcvd(d: Dpt, version: int): Dpt {
    if !Supports(d, version) then HandleClosed(Tell(d.(state := Disconnected), HelloRefused))
    else
      var r := Tell(d.(version := version, helloRcvd := true, state := WaitFeatures), HelloAccepted(version));
      if d.helloSent then Request(r, FEATURES_REQUEST) else r
  }

  /** ta_validate, which both looks up and removes. */
  function Validate(d: Dpt, xid: Xid, kind: int): Dpt {
    d.(ta := Transactions.Step(d.ta, Transactions.Validate(xid, kind)))
  }

  predicate Answers(d: Dpt, xid: Xid, kind: int) {
    Transactions.Succeeds(d.ta, Transactions.Validate(xid, kind))
  }

  function FeaturesReplyRcvd(d: Dpt, quality: Quality): Dpt
    requires !quality.BadSyntax?
  {
    if quality.BadPort? then Tell(d.(state := Disconnected), DptClose)
    else
      var r := Tell(d, FeaturesDone);
      if d.state.WaitFeatures? then Request(r, GET_CONFIG_REQUEST).(state := WaitGetConfig) else r
  }

  function GetConfigReplyRcvd(d: Dpt): Dpt {
    var r := Tell(d, GetConfigDone);
    if !d.state.WaitGetConfig? then r
    else if d.version == OFP10 then Tell(r.(state := Connected), DptOpen)
    else Request(r, StatsRequest(d.version)).(state := WaitTableStats)
  }

  function StatsReplyRcvd(d: Dpt): Dpt {
    var r := Tell(d, StatsDone);
    if d.state.WaitTableStats? then Tell(r.(state := Connected), DptOpen) else r
  }

  /** handle_message: nothing but a HELLO gets through before a HELLO; a reply must answer a request. */
  function HandleMessage(d: Dpt, m: Message): Dpt {
    if !m.Hello? && !d.helloRcvd then d
    else match m
      case Hello(v, good) => if good then HelloRcvd(d, v) else d
      case FeaturesReply(xid, q) =>
        var r := Validate(d, xid, FEATURES_REQUEST);
        if Answers(d, xid, FEATURES_REQUEST) && !q.BadSyntax? then FeaturesReplyRcvd(r, q) else r
      case GetConfigReply(xid, good) =>
        var r := Validate(d, xid, GET_CONFIG_REQUEST);
        if Answers(d, xid, GET_CONFIG_REQUEST) && good then GetConfigReplyRcvd(r) else r
      case StatsReply(xid, good) =>
        var r := Validate(d, xid, StatsRequest(d.version));
        if Answers(d, xid, StatsRequest(d.version)) && good then StatsReplyRcvd(r) else r
      case OtherReply(xid, o) =>
        if OtherRequest(d.version, o) == 0 then d else Validate(d, xid, OtherRequest(d.version, o))
      case Notice => d
  }

  function HandleEchoTimeout(d: Dpt): Dpt {
    var r := d.(state := Disconnected);
    Tell(if d.active then Tell(r, Reconnect) else r, DptClose)
  }

  function Step(d: Dpt, i: Input): Dpt {
    match i
    case HelloTimer => SendHello(d)
    case Receive(m) => HandleMessage(d, m)
    case Close => HandleClosed(d)
    case EchoTimeout => HandleEchoTimeout(d)
    case Refused => Tell(d.(state := Disconnected), Reconnect)
    case Send(kind) => Request(d, kind)
    case Elsewhere(op) => d.(ta := Transactions.Step(d.ta, op))
  }

  function Run(d: Dpt, inputs: seq<Input>): Dpt
    decreases |inputs|
  {
    if inputs == [] then d else Run(Step(d, inputs[0]), inputs[1..])
  }

  function New(start: Xid, version: Version, of10: bool, of12: bool, active: bool): Dpt {
    Dpt(version, of10, of12, false, false, Disconnected, active, Transactions.Start(start), [])
  }

  // ---- the order of the handshake -------------------------------------------------------------

  /** How far the handshake begun by the latest accepted HELLO has come: where in the log its steps are,
      and how many of them have been seen; nothing once the session has been reported open. */
  datatype Track = Track(stage: int, hello: int, features: int, config: int, stats: int)

  function Follow(log: seq<Effect>): (t: Track)
    ensures 0 <= t.stage ==> 0 <= t.hello < |log| && log[t.hello].HelloAccepted?
    ensures 0 <= t.stage ==> forall i :: t.hello < i < |log| ==> !log[i].HelloAccepted? && !log[i].DptOpen?
    ensures 1 <= t.stage ==> t.hello < t.features < |log| && log[t.features].FeaturesDone?
    ensures 2 <= t.stage ==> t.features < t.config < |log| && log[t.config].GetConfigDone?
    ensures 3 <= t.stage ==> t.config < t.stats < |log| && log[t.stats].StatsDone?
  {
    if log == [] then Track(-1, 0, 0, 0, 0)
    else
      var n := |log| - 1;
      var t := Follow(log[..n]);
      match log[n]
      case HelloAccepted(_) => Track(0, n, 0, 0, 0)
      case DptOpen => Track(-1, 0, 0, 0, 0)
      case FeaturesDone => if t.stage == 0 then t.(stage := 1, features := n) else t
      case GetConfigDone => if t.stage == 1 then t.(stage := 2, config := n) else t
      case StatsDone => if t.stage == 2 then t.(stage := 3, stats := n) else t
      case _ => t
  }

  /** The version of the latest accepted HELLO. */
  function Agreed(log: seq<Effect>): int
    requires 0 <= Follow(log).stage
  {
    log[Follow(log).hello].version
  }

  /** How many steps of the handshake have been seen, and the version it was begun with. */
  datatype Progress = Progress(stage: int, version: int)

  function Reached(log: seq<Effect>): Progress {
    var t := Follow(log);
    Progress(t.stage, if 0 <= t.stage then Agreed(log) else 0)
  }

  function After(p: Progress, e: Effect): Progress {
    match e
    case HelloAccepted(v) => Progress(0, v)
    case DptOpen => Progress(-1, 0)
    case FeaturesDone => if p.stage == 0 then p.(stage := 1) else p
    case GetConfigDone => if p.stage == 1 then p.(stage := 2) else p
    case StatsDone => if p.stage == 2 then p.(stage := 3) else p
    case _ => p
  }

  lemma ReachedTell(log: seq<Effect>, e: Effect)
    ensures Reached(log + [e]) == After(Reached(log), e)
  {
    assert (log + [e])[..|log|] == log;
    var t := Follow(log);
    assert 0 <= t.stage ==> (log + [e])[t.hello] == log[t.hello];
  }

  /** A session may be reported open when it has come this far. */
  predicate Complete(p: Progress) {
    0 <= p.stage && p.stage == if p.version == OFP10 then 2 else 3
  }

  predicate OpensAllowed(log: seq<Effect>) {
    forall k :: 0 <= k < |log| && log[k].DptOpen? ==> Complete(Reached(log[..k]))
  }

  /** The state says how far the handshake has come. */
  predicate Fits(state: FsmState, version: Version, p: Progress) {
    match state
    case WaitFeatures => p == Progress(0, version)
    case WaitGetConfig => p == Progress(1, version)
    case WaitTableStats => p == Progress(2, version) && version != OFP10
    case _ => true
  }

  predicate InStep(d: Dpt) {
    OpensAllowed(d.log) && Fits(d.state, d.version, Reached(d.log))
  }

  lemma TellAllowed(log: seq<Effect>, e: Effect)
    requires OpensAllowed(log) && (e.DptOpen? ==> Complete(Reached(log)))
    ensures OpensAllowed(log + [e])
  {
    hide Reached;
    forall k | 0 <= k < |log + [e]| && (log + [e])[k].DptOpen? ensures Complete(Reached((log + [e])[..k])) {
      assert (log + [e])[..k] == log[..k];
      assert log[..|log|] == log;
    }
  }

  /** One more effect, after which the state fits again. */
  lemma TellInStep(d: Dpt, e: Effect)
    requires OpensAllowed(d.log) && (e.DptOpen? ==> Complete(Reached(d.log)))
    requires Fits(d.state, d.version, After(Reached(d.log), e))
    ensures InStep(Tell(d, e)) && Reached(Tell(d, e).log) == After(Reached(d.log), e)
  {
    hide Reached, OpensAllowed, After, Fits, Complete;
    TellAllowed(d.log, e);
    ReachedTell(d.log, e);
  }

  /** Effects that the order does not care about. */
  lemma TellQuietly(d: Dpt, e: Effect)
    requires InStep(d) && (e.Requested? || e.HelloSent? || e.HelloRefused? || e.DptClose? || e.Reconnect?)
    ensures InStep(Tell(d, e)) && Reached(Tell(d, e).log) == Reached(d.log)
  {
    hide Reached, OpensAllowed, Complete;
    TellInStep(d, e);
  }

  lemma RequestInStep(d: Dpt, kind: int)
    requires InStep(d)
    ensures InStep(Request(d, kind)) && Reached(Request(d, kind).log) == Reached(d.log)
  {
    hide Reached, OpensAllowed, Fits;
    TellQuietly(d.(ta := Transactions.Step(d.ta, Transactions.Add(kind))), Requested(kind));
  }

  lemma RequestThenState(d: Dpt, kind: int, state: FsmState)
    ensures Request(d, kind).(state := state) == Request(d.(state := state), kind)
  {
  }

  lemma ClosedInStep(d: Dpt)
    requires InStep(d)
    ensures InStep(HandleClosed(d))
  {
    hide Reached, OpensAllowed, Fits;
    TellQuietly(d.(helloSent := false, helloRcvd := false), if d.active then Reconnect else DptClose);
  }

  lemma HelloInStep(d: Dpt, version: int)
    requires InStep(d)
    ensures InStep(HelloRcvd(d, version))
  {
    hide Reached, OpensAllowed, Request, HandleClosed;
    if Supports(d, version) {
      var r := d.(version := version, helloRcvd := true, state := WaitFeatures);
      TellInStep(r, HelloAccepted(version));
      RequestInStep(Tell(r, HelloAccepted(version)), FEATURES_REQUEST);
    } else {
      var r := d.(state := Disconnected);
      TellQuietly(r, HelloRefused);
      ClosedInStep(Tell(r, HelloRefused));
    }
  }

  lemma FeaturesInStep(d: Dpt, quality: Quality)
    requires InStep(d) && !quality.BadSyntax?
    ensures InStep(FeaturesReplyRcvd(d, quality))
  {
    hide Reached, OpensAllowed, Request, Complete;
    if quality.BadPort? {
      TellQuietly(d.(state := Disconnected), DptClose);
    } else if d.state.WaitFeatures? {
      var s := d.(state := WaitGetConfig);
      TellInStep(s, FeaturesDone);
      RequestInStep(Tell(s, FeaturesDone), GET_CONFIG_REQUEST);
      RequestThenState(Tell(d, FeaturesDone), GET_CONFIG_REQUEST, WaitGetConfig);
    } else {
      TellInStep(d, FeaturesDone);
    }
  }

  lemma GetConfigInStep(d: Dpt)
    requires InStep(d)
    ensures InStep(GetConfigReplyRcvd(d))
  {
    hide Reached, OpensAllowed, Request;
    if !d.state.WaitGetConfig? {
      TellInStep(d, GetConfigDone);
    } else if d.version == OFP10 {
      var s := d.(state := Connected);
      TellInStep(s, GetConfigDone);
      TellInStep(Tell(s, GetConfigDone), DptOpen);
    } else {
      var s := d.(state := WaitTableStats);
      TellInStep(s, GetConfigDone);
      RequestInStep(Tell(s, GetConfigDone), StatsRequest(d.version));
      RequestThenState(Tell(d, GetConfigDone), StatsRequest(d.version), WaitTableStats);
    }
  }

  lemma StatsInStep(d: Dpt)
    requires InStep(d)
    ensures InStep(StatsReplyRcvd(d))
  {
    hide Reached, OpensAllowed;
    if d.state.WaitTableStats? {
      var s := d.(state := Connected);
      TellInStep(s, StatsDone);
      TellInStep(Tell(s, StatsDone), DptOpen);
    } else {
      TellInStep(d, StatsDone);
    }
  }

  lemma ValidateInStep(d: Dpt, xid: Xid, kind: int)
    requires InStep(d)
    ensures InStep(Validate(d, xid, kind))
  {
    hide Reached, OpensAllowed, Fits;
  }

  lemma MessageInStep(d: Dpt, m: Message)
    requires InStep(d)
    ensures InStep(HandleMessage(d, m))
  {
    hide InStep, HelloRcvd, FeaturesReplyRcvd, GetConfigReplyRcvd, StatsReplyRcvd, Validate, Answers;
    match m
    case Hello(v, good) => HelloInStep(d, v);
    case FeaturesReply(xid, q) =>
      ValidateInStep(d, xid, FEATURES_REQUEST);
      if !q.BadSyntax? {
        FeaturesInStep(Validate(d, xid, FEATURES_REQUEST), q);
      }
    case GetConfigReply(xid, good) =>
      ValidateInStep(d, xid, GET_CONFIG_REQUEST);
      GetConfigInStep(Validate(d, xid, GET_CONFIG_REQUEST));
    case StatsReply(xid, good) =>
      ValidateInStep(d, xid, StatsRequest(d.version));
      StatsInStep(Validate(d, xid, StatsRequest(d.version)));
    case OtherReply(xid, o) => ValidateInStep(d, xid, OtherRequest(d.version, o));
    case Notice =>
  }

  lemma HelloTimerInStep(d: Dpt)
    requires InStep(d)
    ensures InStep(SendHello(d))
  {
    hide Reached, OpensAllowed, Fits, Request;
    var r := d.(ta := Transactions.Step(d.ta, Transactions.Async), helloSent := true);
    TellQuietly(r, HelloSent);
    RequestInStep(Tell(r, HelloSent), FEATURES_REQUEST);
    RequestInStep(Request(Tell(r, HelloSent), FEATURES_REQUEST), ECHO_REQUEST);
  }

  lemma EchoTimeoutInStep(d: Dpt)
    requires InStep(d)
    ensures InStep(HandleEchoTimeout(d))
  {
    hide Reached, OpensAllowed;
    var r := d.(state := Disconnected);
    TellQuietly(r, Reconnect);
    TellQuietly(if d.active then Tell(r, Reconnect) else r, DptClose);
  }

  /** Whatever happens next, the state machine is again in step with its log. */
  lemma StepInStep(d: Dpt, i: Input)
    requires InStep(d)
    ensures InStep(Step(d, i))
  {
    hide Reached, OpensAllowed, HandleMessage, HandleClosed, HandleEchoTimeout, SendHello, Request;
    match i
    case HelloTimer => HelloTimerInStep(d);
    case Receive(m) => MessageInStep(d, m);
    case Close => ClosedInStep(d);
    case EchoTimeout => EchoTimeoutInStep(d);
    case Refused => TellQuietly(d.(state := Disconnected), Reconnect);
    case Send(kind) => RequestInStep(d, kind);
    case Elsewhere(op) =>
  }

  lemma {:induction false} RunInStep(d: Dpt, inputs: seq<Input>)
    requires InStep(d)
    ensures InStep(Run(d, inputs))
    decreases |inputs|
  {
    if inputs != [] {
      StepInStep(d, inputs[0]);
      hide InStep, Step;
      RunInStep(Step(d, inputs[0]), inputs[1..]);
    }
  }

  /** In every run, wherever the log says that handle_dpt_open was called, a HELLO was accepted before,
      then a FEATURES reply, a GET-CONFIG reply and, unless the version is 1.0, a STATS reply were
      processed in that order, and since that HELLO neither another was accepted nor the session opened. */
  lemma OpensInOrder(start: Xid, version: Version, of10: bool, of12: bool, active: bool, inputs: seq<Input>, k: int)
    requires var log := Run(New(start, version, of10, of12, active), inputs).log; 0 <= k < |log| && log[k].DptOpen?
    ensures var log := Run(New(start, version, of10, of12, active), inputs).log;
            exists h, f, g ::
              && 0 <= h < f < g < k && log[h].HelloAccepted? && log[f].FeaturesDone? && log[g].GetConfigDone?
              && (log[h].version != OFP10 ==> exists s :: g < s < k && log[s].StatsDone?)
              && forall i :: h < i < k ==> !log[i].HelloAccepted? && !log[i].DptOpen?
  {
    var d := New(start, version, of10, of12, active);
    assert InStep(d);
    RunInStep(d, inputs);
    var log := Run(d, inputs).log;
    assert Complete(Reached(log[..k]));
    var t := Follow(log[..k]);
    assert forall i :: 0 <= i < k ==> log[..k][i] == log[i];
  }

  /** The messages of a handshake that goes well, the replies bearing the identifiers of the requests. */
  function GoodHandshake(start: Xid, version: int): seq<Input> {
    var f := Transactions.Succ(start);
    var g := Transactions.Succ(f);
    [Receive(Hello(version, true)), Receive(FeaturesReply(f, Good)), Receive(GetConfigReply(g, true))]
    + if version == OFP10 then [] else [Receive(StatsReply(Transactions.Succ(g), true))]
  }

  /** From any state in which the own HELLO is out, a handshake that goes well ends with the session
      reported open, once, after exactly its own steps. */
  lemma HandshakeCompletes(d: Dpt, version: int)
    requires Supports(d, version) && d.helloSent
    ensures var e := Run(d, GoodHandshake(d.ta.start, version));
            && e.state.Connected?
            && e.log == d.log + [HelloAccepted(version), Requested(5), FeaturesDone, Requested(7), GetConfigDone]
                        + (if version == 1 then [] else [Requested(18), StatsDone]) + [DptOpen]
  {
    hide Run, Step, Asks, Transactions.Succ, GoodHandshake;
    var d1, d2, d3 := GoodThree(d, version);
    var before := d.log
        + [HelloAccepted(version), Requested(FEATURES_REQUEST), FeaturesDone, Requested(GET_CONFIG_REQUEST)];
    assert d2.log == before;
    if version == OFP10 {
      assert before + [GetConfigDone, DptOpen] == before + [GetConfigDone] + [] + [DptOpen];
    } else {
      GoodReply(d3, StatsReply(d3.ta.start, true));
    }
  }

  /** The first three messages of a good handshake, and what is left to do. */
  lemma GoodThree(d: Dpt, version: int) returns (d1: Dpt, d2: Dpt, d3: Dpt)
    requires Supports(d, version) && d.helloSent
    ensures d1.log == d.log + [HelloAccepted(version), Requested(FEATURES_REQUEST)]
    ensures d2.log == d1.log + [FeaturesDone, Requested(GET_CONFIG_REQUEST)]
    ensures version == OFP10 ==> d3.state.Connected? && d3.log == d2.log + [GetConfigDone, DptOpen]
    ensures version == OFP12 ==> d3.state.WaitTableStats? && d3.version == version && Asks(d3, StatsRequest(version))
                                 && d3.log == d2.log + [GetConfigDone, Requested(StatsRequest(version))]
    ensures Run(d, GoodHandshake(d.ta.start, version)) ==
            if version == OFP10 then d3 else Step(d3, Receive(StatsReply(d3.ta.start, true)))
  {
    var ins := GoodHandshake(d.ta.start, version);
    d1 := Step(d, ins[0]);
    d2 := Step(d1, ins[1]);
    d3 := Step(d2, ins[2]);
    hide Step, Request, Validate, Answers, Transactions.Succ, StatsRequest, Run;
    GoodHello(d, version);
    GoodReply(d1, ins[1].m);
    GoodReply(d2, ins[2].m);
    RunThree(d, ins);
    RunNone(d3);
    if version == OFP10 {
      assert ins[3..] == [];
    } else {
      RunOne(d3, ins[3], []);
      RunNone(Step(d3, ins[3]));
      assert ins[3..] == [ins[3]] + [];
    }
  }

  lemma RunNone(d: Dpt)
    ensures Run(d, []) == d
  {
  }

  /** The latest request sent is the one of this type. */
  predicate Asks(d: Dpt, kind: int) {
    d.helloRcvd && d.ta.start in d.ta.pending && d.ta.pending[d.ta.start] == kind
  }

  lemma GoodHello(d: Dpt, version: int)
    requires Supports(d, version) && d.helloSent
    ensures var e := Step(d, Receive(Hello(version, true)));
            && e.state.WaitFeatures? && e.version == version && Asks(e, FEATURES_REQUEST)
            && e.ta.start == Transactions.Succ(d.ta.start)
            && e.log == d.log + [HelloAccepted(version), Requested(FEATURES_REQUEST)]
  {
  }

  /** A good reply to the latest request takes the session one state on. */
  lemma GoodReply(d: Dpt, m: Message)
    requires Steers(m) && m.xid == d.ta.start && Asks(d, Asked(d, m))
    requires m == FeaturesReply(m.xid, Good) || m == GetConfigReply(m.xid, true) || m == StatsReply(m.xid, true)
    ensures Step(d, Receive(m)).version == d.version
    ensures m.FeaturesReply? && d.state.WaitFeatures? ==>
            Asking(d, Step(d, Receive(m)), FeaturesDone, GET_CONFIG_REQUEST, WaitGetConfig)
    ensures m.GetConfigReply? && d.state.WaitGetConfig? && d.version == OFP10 ==>
            Opening(d, Step(d, Receive(m)), GetConfigDone)
    ensures m.GetConfigReply? && d.state.WaitGetConfig? && d.version == OFP12 ==>
              Asking(d, Step(d, Receive(m)), GetConfigDone, StatsRequest(d.version), WaitTableStats)
    ensures m.StatsReply? && d.state.WaitTableStats? ==> Opening(d, Step(d, Receive(m)), StatsDone)
  {
    hide Validate, Answers, Asks, FeaturesReplyRcvd, GetConfigReplyRcvd, StatsReplyRcvd, Asking, Opening;
    var kind := Asked(d, m);
    Answered(d, kind);
    assert d.helloRcvd by { AsksRcvd(d, kind); }
    HandlersGoOn(d, Validate(d, m.xid, kind));
  }

  lemma AsksRcvd(d: Dpt, kind: int)
    requires Asks(d, kind)
    ensures d.helloRcvd
  {
  }

  /** The reply is taken for done, and the next request is out. */
  predicate Asking(d: Dpt, e: Dpt, done: Effect, kind: int, state: FsmState) {
    && e.state == state && Asks(e, kind) && e.ta.start == Transactions.Succ(d.ta.start)
    && e.log == d.log + [done, Requested(kind)]
  }

  /** The reply is taken for done, and the session reported open. */
  predicate Opening(d: Dpt, e: Dpt, done: Effect) {
    e.state.Connected? && e.log == d.log + [done, DptOpen]
  }

  lemma HandlersGoOn(d: Dpt, r: Dpt)
    requires r == d.(ta := r.ta) && r.ta.start == d.ta.start && r.helloRcvd
    ensures var e := FeaturesReplyRcvd(r, Good);
            && e.version == d.version
            && (d.state.WaitFeatures? ==> Asking(d, e, FeaturesDone, GET_CONFIG_REQUEST, WaitGetConfig))
    ensures var e := GetConfigReplyRcvd(r);
            && e.version == d.version
            && (d.state.WaitGetConfig? && d.version == OFP10 ==> Opening(d, e, GetConfigDone))
            && (d.state.WaitGetConfig? && d.version == OFP12 ==>
                  Asking(d, e, GetConfigDone, StatsRequest(d.version), WaitTableStats))
    ensures var e := StatsReplyRcvd(r); e.version == d.version && (d.state.WaitTableStats? ==> Opening(d, e, StatsDone))
  {
    hide Asks, Request, StatsRequest;
    RequestAsks(Tell(r, FeaturesDone), GET_CONFIG_REQUEST);
    RequestAsks(Tell(r, GetConfigDone), StatsRequest(d.version));
  }

  lemma Answered(d: Dpt, kind: int)
    requires Asks(d, kind)
    ensures Answers(d, d.ta.start, kind)
    ensures var r := Validate(d, d.ta.start, kind); r == d.(ta := r.ta) && r.ta.start == d.ta.start && r.helloRcvd
  {
  }

  lemma RequestAsks(d: Dpt, kind: int)
    requires d.helloRcvd
    ensures var e := Request(d, kind);
            && e.ta.start == Transactions.Succ(d.ta.start) && e.log == d.log + [Requested(kind)]
            && e == d.(ta := e.ta, log := e.log)
            && Asks(e, kind) && Asks(e.(state := WaitGetConfig), kind) && Asks(e.(state := WaitTableStats), kind)
  {
  }

  lemma RunThree(d: Dpt, ins: seq<Input>)
    requires |ins| >= 3
    ensures Run(d, ins) == Run(Step(Step(Step(d, ins[0]), ins[1]), ins[2]), ins[3..])
  {
    hide Step;
    var d1 := Step(d, ins[0]);
    var d2 := Step(d1, ins[1]);
    assert Run(d1, ins[1..]) == Run(d2, ins[1..][1..]);
    assert ins[1..][1..] == ins[2..];
    assert Run(d2, ins[2..]) == Run(Step(d2, ins[2]), ins[2..][1..]);
    assert ins[2..][1..] == ins[3..];
  }

  // ---- replies answer requests ----------------------------------------------------------------

  /** The replies that take the state machine on. */
  predicate Steers(m: Message) {
    m.FeaturesReply? || m.GetConfigReply? || m.StatsReply?
  }

  /** Well formed, but perhaps for a port in it. */
  predicate Sensible(m: Message) {
    match m
    case FeaturesReply(_, quality) => quality != BadSyntax
    case GetConfigReply(_, good) => good
    case StatsReply(_, good) => good
    case _ => true
  }

  /** The type of the request that such a reply answers. */
  function Asked(d: Dpt, m: Message): int
    requires Steers(m)
  {
    match m
    case FeaturesReply(_, _) => FEATURES_REQUEST
    case GetConfigReply(_, _) => GET_CONFIG_REQUEST
    case StatsReply(_, _) => StatsRequest(d.version)
  }

  /** Requests of the application and of other sessions name a message type other than 0. */
  predicate ProperInput(i: Input) {
    match i
    case Send(kind) => kind != 0
    case Elsewhere(op) => Transactions.Proper(op)
    case _ => true
  }

  lemma RequestConsistent(d: Dpt, kind: int)
    requires Transactions.Consistent(d.ta) && kind != 0 && d.ta.allocs < Transactions.RANGE - 1
    ensures Transactions.Consistent(Request(d, kind).ta) && Request(d, kind).ta.allocs == d.ta.allocs + 1
  {
    Transactions.AddConsistent(d.ta, Transactions.Add(kind));
  }

  lemma HelloConsistent(d: Dpt, version: int)
    requires Transactions.Consistent(d.ta) && d.ta.allocs < Transactions.RANGE - 1
    ensures var e := HelloRcvd(d, version); Transactions.Consistent(e.ta) && e.ta.allocs <= d.ta.allocs + 1
  {
    hide Transactions.Consistent, Request;
    if Supports(d, version) {
      var r := d.(version := version, helloRcvd := true, state := WaitFeatures);
      RequestConsistent(Tell(r, HelloAccepted(version)), FEATURES_REQUEST);
    }
  }

  lemma FeaturesConsistent(d: Dpt, q: Quality)
    requires Transactions.Consistent(d.ta) && d.ta.allocs < Transactions.RANGE - 1 && !q.BadSyntax?
    ensures var e := FeaturesReplyRcvd(d, q); Transactions.Consistent(e.ta) && e.ta.allocs <= d.ta.allocs + 1
  {
    hide Transactions.Consistent, Request;
    RequestConsistent(Tell(d, FeaturesDone), GET_CONFIG_REQUEST);
  }

  lemma GetConfigConsistent(d: Dpt)
    requires Transactions.Consistent(d.ta) && d.ta.allocs < Transactions.RANGE - 1
    ensures var e := GetConfigReplyRcvd(d); Transactions.Consistent(e.ta) && e.ta.allocs <= d.ta.allocs + 1
    ensures StatsReplyRcvd(d).ta == d.ta
  {
    hide Transactions.Consistent, Request;
    RequestConsistent(Tell(d, GetConfigDone), StatsRequest(d.version));
  }

  lemma ValidateConsistent(d: Dpt, xid: Xid, kind: int)
    requires Transactions.Consistent(d.ta) && kind != 0
    ensures var e := Validate(d, xid, kind); Transactions.Consistent(e.ta) && e.ta.allocs == d.ta.allocs
  {
    hide Transactions.Consistent;
    Transactions.ReplyConsistent(d.ta, Transactions.Validate(xid, kind));
  }

  lemma MessageConsistent(d: Dpt, m: Message)
    requires Transactions.Consistent(d.ta) && d.ta.allocs < Transactions.RANGE - 1
    ensures Transactions.Consistent(HandleMessage(d, m).ta) && HandleMessage(d, m).ta.allocs <= d.ta.allocs + 1
  {
    hide Transactions.Consistent, HelloRcvd, FeaturesReplyRcvd, GetConfigReplyRcvd, StatsReplyRcvd, Validate, Answers;
    match m
    case Hello(v, good) => HelloConsistent(d, v);
    case FeaturesReply(xid, q) =>
      ValidateConsistent(d, xid, FEATURES_REQUEST);
      if !q.BadSyntax? {
        FeaturesConsistent(Validate(d, xid, FEATURES_REQUEST), q);
      }
    case GetConfigReply(xid, good) =>
      ValidateConsistent(d, xid, GET_CONFIG_REQUEST);
      GetConfigConsistent(Validate(d, xid, GET_CONFIG_REQUEST));
    case StatsReply(xid, good) =>
      ValidateConsistent(d, xid, StatsRequest(d.version));
      GetConfigConsistent(Validate(d, xid, StatsRequest(d.version)));
    case OtherReply(xid, o) =>
      if OtherRequest(d.version, o) != 0 {
        ValidateConsistent(d, xid, OtherRequest(d.version, o));
      }
    case Notice =>
  }

  lemma StepConsistent(d: Dpt, i: Input)
    requires Transactions.Consistent(d.ta) && ProperInput(i) && d.ta.allocs < Transactions.RANGE - 3
    ensures Transactions.Consistent(Step(d, i).ta) && Step(d, i).ta.allocs <= d.ta.allocs + 3
  {
    hide Transactions.Consistent;
    match i
    case HelloTimer =>
      Transactions.AsyncConsistent(d.ta);
      var r := Tell(d.(ta := Transactions.Step(d.ta, Transactions.Async), helloSent := true), HelloSent);
      RequestConsistent(r, FEATURES_REQUEST);
      RequestConsistent(Request(r, FEATURES_REQUEST), ECHO_REQUEST);
    case Receive(m) => MessageConsistent(d, m);
    case Send(kind) => RequestConsistent(d, kind);
    case Elsewhere(op) => Transactions.StepConsistent(d.ta, op);
    case _ =>
  }

  lemma {:induction false} RunConsistent(d: Dpt, inputs: seq<Input>)
    requires Transactions.Consistent(d.ta) && d.ta.allocs + 3 * |inputs| < Transactions.RANGE
    requires forall i :: 0 <= i < |inputs| ==> ProperInput(inputs[i])
    ensures Transactions.Consistent(Run(d, inputs).ta)
    decreases |inputs|
  {
    if inputs != [] {
      StepConsistent(d, inputs[0]);
      hide Transactions.Consistent, Step;
      RunConsistent(Step(d, inputs[0]), inputs[1..]);
    }
  }

  /** In every run, a message other than HELLO that has any effect on the session is one of the three
      replies, well formed, answers a request that was sent with the right type and not answered before, and after that
      the request is answered. */
  lemma EffectsAnswerRequests(
      start: Xid, version: Version, of10: bool, of12: bool, active: bool, inputs: seq<Input>, m: Message)
    requires 3 * |inputs| < Transactions.RANGE && forall i :: 0 <= i < |inputs| ==> ProperInput(inputs[i])
    requires !m.Hello?
    ensures var d := Run(New(start, version, of10, of12, active), inputs); var e := HandleMessage(d, m);
            e.log != d.log || e.state != d.state ==>
              && Steers(m) && Sensible(m) && d.helloRcvd
              && Transactions.Outstanding(d.ta, m.xid, if m.FeaturesReply? then 5 else if m.GetConfigReply? then 7
                                                       else if d.version == 1 then 16 else 18)
              && e.ta.accepted[m.xid] == 1
  {
    var d := Run(New(start, version, of10, of12, active), inputs);
    RunConsistent(New(start, version, of10, of12, active), inputs);
    hide Run, Transactions.Consistent, HandleMessage, Transactions.Outstanding, Follow;
    MessageEffect(d, m);
    if Steers(m) && Sensible(m) && d.helloRcvd && Answers(d, m.xid, Asked(d, m)) {
      AnsweredOnce(d, m.xid, Asked(d, m));
    }
  }

  /** Without a request it answers a reply changes nothing but the table; with one it is accepted. */
  lemma MessageEffect(d: Dpt, m: Message)
    requires !m.Hello?
    ensures var e := HandleMessage(d, m);
            if Steers(m) && Sensible(m) && d.helloRcvd && Answers(d, m.xid, Asked(d, m))
            then e.ta.accepted == Validate(d, m.xid, Asked(d, m)).ta.accepted
            else e.log == d.log && e.state == d.state
  {
    hide FeaturesReplyRcvd, GetConfigReplyRcvd, StatsReplyRcvd, Answers;
    if Steers(m) {
      HandlersAccept(Validate(d, m.xid, Asked(d, m)), if m.FeaturesReply? then m.quality else Good);
    }
  }

  /** The handlers of the three replies validate nothing. */
  lemma HandlersAccept(d: Dpt, q: Quality)
    ensures !q.BadSyntax? ==> FeaturesReplyRcvd(d, q).ta.accepted == d.ta.accepted
    ensures GetConfigReplyRcvd(d).ta.accepted == d.ta.accepted && StatsReplyRcvd(d).ta.accepted == d.ta.accepted
  {
    hide Request;
    RequestAccepts(Tell(d, FeaturesDone), GET_CONFIG_REQUEST);
    RequestAccepts(Tell(d, GetConfigDone), StatsRequest(d.version));
  }

  lemma RequestAccepts(d: Dpt, kind: int)
    ensures Request(d, kind).ta.accepted == d.ta.accepted
  {
  }

  lemma AnsweredOnce(d: Dpt, xid: Xid, kind: int)
    requires Transactions.Consistent(d.ta) && Answers(d, xid, kind) && kind != 0
    ensures Transactions.Outstanding(d.ta, xid, kind) && Validate(d, xid, kind).ta.accepted[xid] == 1
  {
  }

  // ---- one FEATURES request per connection ----------------------------------------------------

  function FeaturesRequests(log: seq<Effect>): nat {
    if log == [] then 0
    else FeaturesRequests(log[..|log| - 1]) + if log[|log| - 1] == Requested(FEATURES_REQUEST) then 1 else 0
  }

  lemma FeaturesTell(log: seq<Effect>, e: Effect)
    ensures FeaturesRequests(log + [e]) == FeaturesRequests(log) + if e == Requested(FEATURES_REQUEST) then 1 else 0
  {
    assert (log + [e])[..|log|] == log;
  }

  /** Inputs other than the HELLO timer, a well-formed HELLO, a close, and the application's own requests
      for FEATURES. */
  predicate Neutral(i: Input) {
    match i
    case HelloTimer => false
    case Receive(m) => m.Hello? ==> !m.good
    case Close => false
    case Send(kind) => kind != FEATURES_REQUEST
    case _ => true
  }

  lemma NeutralRequest(d: Dpt, kind: int)
    requires kind != FEATURES_REQUEST
    ensures Unmoved(d, Request(d, kind))
  {
    hide FeaturesRequests;
    FeaturesTell(d.log, Requested(kind));
  }

  /** Neither flag, nor the number of FEATURES requests, nor what is supported has changed. */
  predicate Unmoved(d: Dpt, e: Dpt) {
    SameSupport(d, e) && e.helloSent == d.helloSent && e.helloRcvd == d.helloRcvd
    && FeaturesRequests(e.log) == FeaturesRequests(d.log)
  }

  lemma NeutralTell(d: Dpt, e: Effect)
    requires e != Requested(FEATURES_REQUEST)
    ensures Unmoved(d, Tell(d, e))
  {
    hide FeaturesRequests;
    FeaturesTell(d.log, e);
  }

  lemma UnmovedTransitive(d: Dpt, e: Dpt, f: Dpt)
    requires Unmoved(d, e) && Unmoved(e, f)
    ensures Unmoved(d, f)
  {
  }

  /** What the handlers do that answer a reply: an effect, and perhaps a request or one more effect. */
  lemma NeutralTwo(d: Dpt, first: Effect, kind: int, second: Effect)
    requires first != Requested(FEATURES_REQUEST) && second != Requested(FEATURES_REQUEST) && kind != FEATURES_REQUEST
    ensures Unmoved(d, Tell(d, first)) && Unmoved(d, Request(Tell(d, first), kind))
            && Unmoved(d, Tell(Tell(d, first), second))
  {
    hide FeaturesRequests, Tell, Request;
    var r := Tell(d, first);
    NeutralTell(d, first);
    NeutralRequest(r, kind);
    NeutralTell(r, second);
    UnmovedTransitive(d, r, Request(r, kind));
    UnmovedTransitive(d, r, Tell(r, second));
  }

  lemma UnmovedWhateverState(d: Dpt, e: Dpt, state: FsmState)
    requires Unmoved(d, e)
    ensures Unmoved(d, e.(state := state))
  {
    hide FeaturesRequests;
  }

  lemma NeutralFeatures(d: Dpt, q: Quality)
    requires !q.BadSyntax?
    ensures Unmoved(d, FeaturesReplyRcvd(d, q))
  {
    hide FeaturesRequests, Request;
    NeutralTell(d.(state := Disconnected), DptClose);
    NeutralTwo(d, FeaturesDone, GET_CONFIG_REQUEST, DptClose);
    UnmovedWhateverState(d, Request(Tell(d, FeaturesDone), GET_CONFIG_REQUEST), WaitGetConfig);
  }

  lemma NeutralReplies(d: Dpt)
    ensures Unmoved(d, GetConfigReplyRcvd(d)) && Unmoved(d, StatsReplyRcvd(d))
  {
    hide FeaturesRequests, Request;
    NeutralTwo(d, GetConfigDone, StatsRequest(d.version), DptOpen);
    UnmovedWhateverState(d, Request(Tell(d, GetConfigDone), StatsRequest(d.version)), WaitTableStats);
    NeutralTwo(d, StatsDone, 0, DptOpen);
  }

  lemma NeutralMessage(d: Dpt, m: Message)
    requires Neutral(Receive(m))
    ensures Unmoved(d, HandleMessage(d, m))
  {
    hide FeaturesRequests, FeaturesReplyRcvd, GetConfigReplyRcvd, StatsReplyRcvd, Answers;
    match m
    case FeaturesReply(xid, q) =>
      if !q.BadSyntax? {
        NeutralFeatures(Validate(d, xid, FEATURES_REQUEST), q);
      }
    case GetConfigReply(xid, good) => NeutralReplies(Validate(d, xid, GET_CONFIG_REQUEST));
    case StatsReply(xid, good) => NeutralReplies(Validate(d, xid, StatsRequest(d.version)));
    case _ =>
  }

  lemma NeutralStep(d: Dpt, i: Input)
    requires Neutral(i)
    ensures Unmoved(d, Step(d, i))
  {
    hide FeaturesRequests;
    match i
    case Receive(m) => NeutralMessage(d, m);
    case EchoTimeout =>
      FeaturesTell(d.log, Reconnect);
      FeaturesTell(if d.active then d.log + [Reconnect] else d.log, DptClose);
    case Refused => FeaturesTell(d.log, Reconnect);
    case Send(kind) => NeutralRequest(d, kind);
    case _ =>
  }

  lemma {:induction false} NeutralRun(d: Dpt, inputs: seq<Input>)
    requires AllNeutral(inputs)
    ensures Unmoved(d, Run(d, inputs))
    decreases |inputs|
  {
    if inputs != [] {
      NeutralStep(d, inputs[0]);
      hide Step, FeaturesRequests, Neutral;
      NeutralRun(Step(d, inputs[0]), inputs[1..]);
    }
  }

  lemma {:induction false} RunAppend(d: Dpt, a: seq<Input>, b: seq<Input>)
    ensures Run(d, a + b) == Run(Run(d, a), b)
    decreases |a|
  {
    if a == [] {
      assert a + b == b;
    } else {
      assert (a + b)[1..] == a[1..] + b;
      RunAppend(Step(d, a[0]), a[1..], b);
    }
  }

  lemma HelloCounts(d: Dpt, version: int)
    requires Supports(d, version)
    ensures var e := Step(d, Receive(Hello(version, true)));
            && SameSupport(d, e) && e.helloRcvd && e.helloSent == d.helloSent
            && FeaturesRequests(e.log) == FeaturesRequests(d.log) + if d.helloSent then 1 else 0
    ensures var e := Step(d, HelloTimer);
            && SameSupport(d, e) && e.helloSent && e.helloRcvd == d.helloRcvd
            && FeaturesRequests(e.log) == FeaturesRequests(d.log) + if d.helloRcvd then 1 else 0
  {
    FeaturesTell(d.log, HelloAccepted(version));
    FeaturesTell(d.log + [HelloAccepted(version)], Requested(FEATURES_REQUEST));
    FeaturesTell(d.log, HelloSent);
    FeaturesTell(d.log + [HelloSent], Requested(FEATURES_REQUEST));
    FeaturesTell(d.log + [HelloSent] + [Requested(FEATURES_REQUEST)], Requested(ECHO_REQUEST));
  }

  /** The inputs of a connection on which the HELLO timer fires once and one HELLO arrives, with others before,
      between and after. */
  function Exchange(version: int, sentFirst: bool, a: seq<Input>, b: seq<Input>, c: seq<Input>): seq<Input> {
    a + [Hellos(version, sentFirst).0] + b + [Hellos(version, sentFirst).1] + c
  }

  function Hellos(version: int, sentFirst: bool): (Input, Input) {
    var sent, rcvd := HelloTimer, Receive(Hello(version, true));
    if sentFirst then (sent, rcvd) else (rcvd, sent)
  }

  lemma RunExchange(d: Dpt, a: seq<Input>, first: Input, b: seq<Input>, second: Input, c: seq<Input>)
    ensures Run(d, a + [first] + b + [second] + c) == Run(Step(Run(Step(Run(d, a), first), b), second), c)
  {
    hide Step, Run;
    RunAppend(d, a + [first] + b + [second], c);
    RunSnoc(d, a + [first] + b, second);
    RunAppend(d, a + [first], b);
    RunSnoc(d, a, first);
  }

  lemma RunSnoc(d: Dpt, a: seq<Input>, i: Input)
    ensures Run(d, a + [i]) == Step(Run(d, a), i)
  {
    hide Step;
    RunAppend(d, a, [i]);
    RunOne(Run(d, a), i, []);
    RunNone(Step(Run(d, a), i));
    assert [i] + [] == [i];
  }

  predicate AllNeutral(inputs: seq<Input>) {
    forall i :: 0 <= i < |inputs| ==> Neutral(inputs[i])
  }

  /** The HELLO handling sends a FEATURES request when the second HELLO is there, and one already with the first
      if the flag of the second was set to begin with. */
  lemma ExchangeCounts(d: Dpt, version: int, sentFirst: bool, a: seq<Input>, b: seq<Input>, c: seq<Input>)
    requires Supports(d, version) && AllNeutral(a) && AllNeutral(b) && AllNeutral(c)
    ensures FeaturesRequests(Run(d, Exchange(version, sentFirst, a, b, c)).log)
            == FeaturesRequests(d.log) + if (if sentFirst then d.helloRcvd else d.helloSent) then 2 else 1
  {
    hide Run, Step, FeaturesRequests, Neutral;
    var (first, second) := Hellos(version, sentFirst);
    var d1 := Run(d, a);
    var d2 := Step(d1, first);
    var d3 := Run(d2, b);
    RunExchange(d, a, first, b, second, c);
    NeutralRun(d, a);
    HelloCounts(d1, version);
    NeutralRun(d2, b);
    HelloCounts(d3, version);
    NeutralRun(Step(d3, second), c);
  }

  /** A connection on which the HELLO timer fires once and one HELLO arrives, in either order and with
      anything neutral before, between and after, has exactly one FEATURES request sent by the HELLO
      handling if and only if the flag of the HELLO that comes second was not set to begin with. */
  lemma OneFeaturesRequestIff(d: Dpt, version: int, sentFirst: bool, a: seq<Input>, b: seq<Input>, c: seq<Input>)
    requires Supports(d, version) && AllNeutral(a) && AllNeutral(b) && AllNeutral(c)
    ensures FeaturesRequests(Run(d, Exchange(version, sentFirst, a, b, c)).log) == FeaturesRequests(d.log) + 1
            <==> !(if sentFirst then d.helloRcvd else d.helloSent)
  {
    hide Run, FeaturesRequests, AllNeutral;
    ExchangeCounts(d, version, sentFirst, a, b, c);
  }

  lemma RunOne(d: Dpt, i: Input, rest: seq<Input>)
    ensures Run(d, [i] + rest) == Run(Step(d, i), rest)
  {
    assert ([i] + rest)[1..] == rest;
  }

  /** The connection after one on which both HELLOs went through: whatever the order of its HELLOs and
      whatever neutral inputs come around them, its HELLO handling sends one FEATURES request if the former
      connection was closed, and two if it ended with the echo timeout. */
  lemma NextConnectionRequests(
      d: Dpt, end: Input, version: int, sentFirst: bool, a: seq<Input>, b: seq<Input>, c: seq<Input>)
    requires d.helloSent && d.helloRcvd && (end.Close? || end.EchoTimeout?)
    requires Supports(d, version) && AllNeutral(a) && AllNeutral(b) && AllNeutral(c)
    ensures FeaturesRequests(Run(d, [end] + Exchange(version, sentFirst, a, b, c)).log)
            == FeaturesRequests(d.log) + if end.Close? then 1 else 2
  {
    hide Run, Step, FeaturesRequests, AllNeutral, Exchange;
    EndCounts(d, end);
    RunOne(d, end, Exchange(version, sentFirst, a, b, c));
    ExchangeCounts(Step(d, end), version, sentFirst, a, b, c);
  }

  lemma EndCounts(d: Dpt, end: Input)
    requires d.helloSent && d.helloRcvd && (end.Close? || end.EchoTimeout?)
    ensures var e := Step(d, end);
            && SameSupport(d, e) && e.helloSent == e.helloRcvd == end.EchoTimeout?
            && FeaturesRequests(e.log) == FeaturesRequests(d.log)
  {
    FeaturesTell(d.log, Reconnect);
    FeaturesTell(d.log, DptClose);
    FeaturesTell(d.log + [Reconnect], DptClose);
  }

  /** A new session, its HELLO exchange, the echo timeout, and the HELLO exchange of the next connection:
      three FEATURES requests for two connections. */
  lemma EchoTimeoutAsksTwice(start: Xid, of10: bool, active: bool)
    ensures var hello := Receive(Hello(OFP12, true));
            var inputs := [HelloTimer, hello, EchoTimeout, HelloTimer, hello];
            FeaturesRequests(Run(New(start, OFP12, of10, true, active), inputs).log) == 3
  {
    hide Run, Step, FeaturesRequests;
    var d := New(start, OFP12, of10, true, active);
    var hello := Receive(Hello(OFP12, true));
    FeaturesOfNone();
    RunSnoc(d, [], HelloTimer);
    RunNone(d);
    RunSnoc(d, [HelloTimer], hello);
    assert [] + [HelloTimer] == [HelloTimer] && [HelloTimer] + [hello] == [HelloTimer, hello];
    HelloCounts(d, OFP12);
    HelloCounts(Step(d, HelloTimer), OFP12);
    var e := Run(d, [HelloTimer, hello]);
    NextConnectionRequests(e, EchoTimeout, OFP12, true, [], [], []);
    assert Exchange(OFP12, true, [], [], []) == [HelloTimer, hello];
    RunAppend(d, [HelloTimer, hello], [EchoTimeout] + [HelloTimer, hello]);
    assert [HelloTimer, hello] + ([EchoTimeout] + [HelloTimer, hello]) ==
        [HelloTimer, hello, EchoTimeout, HelloTimer, hello];
  }

  lemma FeaturesOfNone()
    ensures FeaturesRequests([]) == 0
  {
  }

  // ---- how sessions end -------------------------------------------------------------------------

  function Occurs(log: seq<Effect>, e: Effect): nat {
    if log == [] then 0 else Occurs(log[..|log| - 1], e) + if log[|log| - 1] == e then 1 else 0
  }

  function Given(inputs: seq<Input>, i: Input): nat {
    if inputs == [] then 0 else (if inputs[0] == i then 1 else 0) + Given(inputs[1..], i)
  }

  lemma OccursTell(log: seq<Effect>, e: Effect, f: Effect)
    ensures Occurs(log + [f], e) == Occurs(log, e) + if e == f then 1 else 0
  {
    assert (log + [f])[..|log|] == log;
  }

  /** Three numbers of a session: reconnections, reports of its end, and HELLOs refused. */
  datatype Ends = Ends(reconnects: int, closes: int, refusals: int)

  function EndsOf(log: seq<Effect>): Ends {
    Ends(Occurs(log, Reconnect), Occurs(log, DptClose), Occurs(log, HelloRefused))
  }

  lemma EndsTell(log: seq<Effect>, e: Effect)
    ensures var n := EndsOf(log);
            EndsOf(log + [e]) ==
            match e
            case Reconnect => n.(reconnects := n.reconnects + 1)
            case DptClose => n.(closes := n.closes + 1)
            case HelloRefused => n.(refusals := n.refusals + 1)
            case _ => n
  {
    OccursTell(log, Reconnect, e);
    OccursTell(log, DptClose, e);
    OccursTell(log, HelloRefused, e);
  }

  /** Nothing of the end of a session, and the same kind of session. */
  predicate Stays(d: Dpt, e: Dpt) {
    EndsOf(e.log) == EndsOf(d.log) && e.active == d.active
  }

  lemma TellStays(d: Dpt, e: Effect)
    requires !e.Reconnect? && !e.DptClose? && !e.HelloRefused?
    ensures Stays(d, Tell(d, e))
  {
    hide EndsOf;
    EndsTell(d.log, e);
  }

  lemma RequestStays(d: Dpt, kind: int)
    ensures Stays(d, Request(d, kind))
  {
    hide EndsOf;
    EndsTell(d.log, Requested(kind));
  }

  lemma RepliesStay(d: Dpt)
    ensures Stays(d, FeaturesReplyRcvd(d, Good)) && Stays(d, GetConfigReplyRcvd(d)) && Stays(d, StatsReplyRcvd(d))
  {
    hide EndsOf, Request;
    TellStays(d, FeaturesDone);
    RequestStays(Tell(d, FeaturesDone), GET_CONFIG_REQUEST);
    TellStays(d, GetConfigDone);
    TellStays(Tell(d, GetConfigDone), DptOpen);
    TellStays(Tell(d, GetConfigDone).(state := Connected), DptOpen);
    RequestStays(Tell(d, GetConfigDone), StatsRequest(d.version));
    TellStays(d, StatsDone);
    TellStays(Tell(d, StatsDone).(state := Connected), DptOpen);
  }

  /** No reply with a malformed port, on which the session is given up. */
  predicate PortsGood(i: Input) {
    i.Receive? && i.m.FeaturesReply? ==> !i.m.quality.BadPort?
  }

  /** What a step adds: a close, or a HELLO refused, reconnects an active session and ends a passive one; the echo
      timeout ends both and reconnects the active one; a refused reconnection is tried again. */
  predicate EndsRightly(d: Dpt, i: Input, e: Dpt) {
    var n, m := EndsOf(d.log), EndsOf(e.log);
    var closed := if i.Close? then 1 else m.refusals - n.refusals;
    && e.active == d.active
    && m.reconnects == n.reconnects + (if d.active then closed + (if i.EchoTimeout? then 1 else 0) else 0)
                                    + (if i.Refused? then 1 else 0)
    && m.closes == n.closes + (if d.active then 0 else closed) + (if i.EchoTimeout? then 1 else 0)
    && (i.Close? || i.EchoTimeout? || i.Refused? ==> m.refusals == n.refusals)
  }

  lemma StaysIsRight(d: Dpt, i: Input, e: Dpt)
    requires Stays(d, e) && !i.Close? && !i.EchoTimeout? && !i.Refused?
    ensures EndsRightly(d, i, e)
  {
    hide EndsOf;
  }

  lemma HelloEnds(d: Dpt, version: int, i: Input)
    requires !i.Close? && !i.EchoTimeout? && !i.Refused?
    ensures EndsRightly(d, i, HelloRcvd(d, version))
  {
    hide EndsOf, Request;
    if Supports(d, version) {
      var r := d.(version := version, helloRcvd := true, state := WaitFeatures);
      TellStays(r, HelloAccepted(version));
      RequestStays(Tell(r, HelloAccepted(version)), FEATURES_REQUEST);
    } else {
      EndsTell(d.log, HelloRefused);
      EndsTell(d.log + [HelloRefused], if d.active then Reconnect else DptClose);
    }
  }

  lemma MessageEnds(d: Dpt, m: Message)
    requires PortsGood(Receive(m))
    ensures EndsRightly(d, Receive(m), HandleMessage(d, m))
  {
    hide EndsOf, HelloRcvd, FeaturesReplyRcvd, GetConfigReplyRcvd, StatsReplyRcvd, Answers;
    match m
    case Hello(v, good) => HelloEnds(d, v, Receive(m));
    case FeaturesReply(xid, q) => RepliesStay(Validate(d, xid, FEATURES_REQUEST));
    case GetConfigReply(xid, good) => RepliesStay(Validate(d, xid, GET_CONFIG_REQUEST));
    case StatsReply(xid, good) => RepliesStay(Validate(d, xid, StatsRequest(d.version)));
    case OtherReply(_, _) =>
    case Notice =>
  }

  lemma StepEnds(d: Dpt, i: Input)
    requires PortsGood(i)
    ensures EndsRightly(d, i, Step(d, i))
  {
    hide EndsOf, HandleMessage, Request;
    match i
    case HelloTimer =>
      var r := d.(ta := Transactions.Step(d.ta, Transactions.Async), helloSent := true);
      TellStays(r, HelloSent);
      RequestStays(Tell(r, HelloSent), FEATURES_REQUEST);
      RequestStays(Request(Tell(r, HelloSent), FEATURES_REQUEST), ECHO_REQUEST);
    case Receive(m) => MessageEnds(d, m);
    case Close => EndsTell(d.log, if d.active then Reconnect else DptClose);
    case EchoTimeout =>
      EndsTell(d.log, Reconnect);
      EndsTell(if d.active then d.log + [Reconnect] else d.log, DptClose);
    case Refused => EndsTell(d.log, Reconnect);
    case Send(kind) => RequestStays(d, kind);
    case Elsewhere(op) =>
  }

  lemma {:induction false} RunEnds(d: Dpt, inputs: seq<Input>)
    requires forall i :: 0 <= i < |inputs| ==> PortsGood(inputs[i])
    ensures var e := Run(d, inputs); var n, m := EndsOf(d.log), EndsOf(e.log);
            var closed := Given(inputs, Close) + m.refusals - n.refusals;
            && e.active == d.active
            && m.reconnects - n.reconnects ==
               Given(inputs, Refused) + (if d.active then closed + Given(inputs, EchoTimeout) else 0)
            && m.closes - n.closes == Given(inputs, EchoTimeout) + (if d.active then 0 else closed)
    decreases |inputs|
  {
    hide EndsOf, Step, PortsGood;
    if inputs != [] {
      StepEnds(d, inputs[0]);
      RunEnds(Step(d, inputs[0]), inputs[1..]);
    }
  }

  /** In every run without malformed ports, a session that connects by itself reconnects as often as its connection
      is closed, a HELLO is refused or the echo times out, and when a reconnection is refused; the application
      is told of its end at echo timeouts only. A session that was accepted never reconnects but when told that
      a reconnection was refused; the application is told of its end at each close, refused HELLO and echo
      timeout. */
  lemma EndsCounted(start: Xid, version: Version, of10: bool, of12: bool, active: bool, inputs: seq<Input>)
    requires forall i :: 0 <= i < |inputs| ==> PortsGood(inputs[i])
    ensures var log := Run(New(start, version, of10, of12, active), inputs).log;
            var closed := Given(inputs, Close) + Occurs(log, HelloRefused);
            var timeouts, refused := Given(inputs, EchoTimeout), Given(inputs, Refused);
            && Occurs(log, Reconnect) == refused + (if active then closed + timeouts else 0)
            && Occurs(log, DptClose) == timeouts + if active then 0 else closed
  {
    hide Run, PortsGood;
    RunEnds(New(start, version, of10, of12, active), inputs);
  }

  // ---- the object -----------------------------------------------------------------------------

  class Cofdpt {
    const rofbase: Transactions.Base
    const activeSocket: bool
    const of10: bool
    const of12: bool
    var ofpVersion: Version
    var helloSent: bool
    var helloRcvd: bool
    var fsmState: FsmState
    ghost var ta: Transactions.World
    ghost var log: seq<Effect>

    /** The history of the identifiers is that of the base object. */
    ghost predicate Valid()
      reads this, rofbase
    {
      rofbase.Valid() && ta.start == rofbase.start && ta.pending == rofbase.pending
    }

    ghost function View(): Dpt
      reads this
    {
      Dpt(ofpVersion, of10, of12, helloSent, helloRcvd, fsmState, activeSocket, ta, log)
    }

    constructor (rofbase: Transactions.Base, version: Version, of10: bool, of12: bool, active: bool)
      requires rofbase.Valid() && rofbase.pending == map[]
      ensures Valid() && this.rofbase == rofbase && View() == New(rofbase.start, version, of10, of12, active)
    {
      this.rofbase, activeSocket, ofpVersion := rofbase, active, version;
      this.of10, this.of12 := of10, of12;
      helloSent, helloRcvd, fsmState := false, false, Disconnected;
      ta, log := Transactions.Start(rofbase.start), [];
    }

    method SendRequest(kind: int)
      requires Valid()
      modifies this`ta, this`log, rofbase
      ensures Valid() && View() == Request(old(View()), kind)
    {
      ta := Transactions.Step(ta, Transactions.Add(kind));
      var xid := rofbase.AddRequest(kind);
      if helloRcvd {
        log := log + [Requested(kind)];
      }
    }

    /** The HELLO timer. */
    method SendHelloMessage()
      requires Valid()
      modifies this, rofbase
      ensures Valid() && View() == Step(old(View()), HelloTimer)
    {
      ta := Transactions.Step(ta, Transactions.Async);
      var xid := rofbase.NewAsyncXid();
      log := log + [HelloSent];
      helloSent := true;
      if helloRcvd {
        SendRequest(FEATURES_REQUEST);
        SendRequest(ECHO_REQUEST);
      }
    }

    method Closed()
      requires Valid()
      modifies this`helloSent, this`helloRcvd, this`log
      ensures Valid() && View() == Step(old(View()), Close)
    {
      helloSent, helloRcvd := false, false;
      log := log + [if activeSocket then Reconnect else DptClose];
    }

    method ReceiveHello(version: int)
      requires Valid()
      modifies this, rofbase
      ensures Valid() && View() == HelloRcvd(old(View()), version)
    {
      if !((version == OFP10 && of10) || (version == OFP12 && of12)) {
        fsmState := Disconnected;
        log := log + [HelloRefused];
        Closed();
      } else {
        ofpVersion := version;
        helloRcvd := true;
        fsmState := WaitFeatures;
        log := log + [HelloAccepted(version)];
        if helloSent {
          SendRequest(FEATURES_REQUEST);
        }
      }
    }

    method TaValidate(xid: Xid, kind: int) returns (ok: bool)
      requires Valid()
      modifies this`ta, rofbase
      ensures Valid() && View() == Validate(old(View()), xid, kind)
      ensures ok <==> Answers(old(View()), xid, kind)
    {
      ta := Transactions.Step(ta, Transactions.Validate(xid, kind));
      ok := rofbase.TaValidate(xid, kind);
    }

    method ReceiveFeaturesReply(quality: Quality)
      requires Valid() && !quality.BadSyntax?
      modifies this, rofbase
      ensures Valid() && View() == FeaturesReplyRcvd(old(View()), quality)
    {
      if quality.BadPort? {
        fsmState := Disconnected;
        log := log + [DptClose];
        return;
      }
      log := log + [FeaturesDone];
      if fsmState == WaitFeatures {
        SendRequest(GET_CONFIG_REQUEST);
        fsmState := WaitGetConfig;
      }
    }

    method ReceiveGetConfigReply()
      requires Valid()
      modifies this, rofbase
      ensures Valid() && View() == GetConfigReplyRcvd(old(View()))
    {
      log := log + [GetConfigDone];
      if fsmState == WaitGetConfig {
        if ofpVersion == OFP10 {
          fsmState := Connected;
          log := log + [DptOpen];
        } else {
          SendRequest(StatsRequest(ofpVersion));
          fsmState := WaitTableStats;
        }
      }
    }

    method ReceiveStatsReply()
      requires Valid()
      modifies this, rofbase
      ensures Valid() && View() == StatsReplyRcvd(old(View()))
    {
      log := log + [StatsDone];
      if fsmState == WaitTableStats {
        fsmState := Connected;
        log := log + [DptOpen];
      }
    }

    method ReceiveMessage(m: Message)
      requires Valid()
      modifies this, rofbase
      ensures Valid() && View() == Step(old(View()), Receive(m))
    {
      if !m.Hello? && !helloRcvd {
        return;
      }
      match m {
        case Hello(version, good) =>
          if good {
            ReceiveHello(version);
          }
        case FeaturesReply(xid, quality) =>
          var ok := TaValidate(xid, FEATURES_REQUEST);
          if ok && quality != BadSyntax {
            ReceiveFeaturesReply(quality);
          }
        case GetConfigReply(xid, good) =>
          var ok := TaValidate(xid, GET_CONFIG_REQUEST);
          if ok && good {
            ReceiveGetConfigReply();
          }
        case StatsReply(xid, good) =>
          var ok := TaValidate(xid, StatsRequest(ofpVersion));
          if ok && good {
            ReceiveStatsReply();
          }
        case OtherReply(xid, o) =>
          var kind := OtherRequest(ofpVersion, o);
          if kind != 0 {
            var ok := TaValidate(xid, kind);
          }
        case Notice =>
      }
    }

    method EchoReplyTimeout()
      modifies this`fsmState, this`log
      ensures View() == Step(old(View()), EchoTimeout)
    {
      fsmState := Disconnected;
      if activeSocket {
        log := log + [Reconnect];
      }
      log := log + [DptClose];
    }
  }
}
