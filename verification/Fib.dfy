/** The forwarding table of the learning switch, kept on the controller, and the rules it installs in the
    datapath: every entry has exactly one rule, and lookups answer from what was seen last. */
module Fib {
  import opened Bytes

  type Mac = a: seq<byte> | |a| == 6 witness [0, 0, 0, 0, 0, 0]

  const FLOOD: int := 0xFFFF_FFFB
  const CONTROLLER: int := 0xFFFF_FFFD
  const TIMEOUT: int := 60

  predicate IsMulticast(a: Mac) {
    a[0] % 2 == 1
  }

  datatype Match = EthDst(a: Mac) | EthSrc(a: Mac)

  datatype FlowMod = Add(match_: Match, out: int) | DeleteStrict(match_: Match)

  /** The learned rules of the datapath after the flow-mods: adding overwrites, deleting is exact. */
  function Rules(sent: seq<FlowMod>): map<Match, int> {
    if sent == [] then map[]
    else
      var rules := Rules(sent[..|sent| - 1]);
      match sent[|sent| - 1]
      case Add(m, out) => rules[m := out]
      case DeleteStrict(m) => rules - {m}
  }

  /** An entry sends to its port, or floods; it expires unless its address is seen again in time. */
  datatype Entry = Entry(port: int, expires: int)

  /** The match of the rule that stands for an entry, and where that rule sends frames. */
  function RuleMatch(a: Mac, port: int): Match {
    if port != FLOOD then EthDst(a) else EthSrc(a)
  }

  function RuleOut(port: int): int {
    if port != FLOOD then port else CONTROLLER
  }

  /** What happened to an address: seen as a source on a port, entered by a lookup, expired. */
  datatype Event = Seen(a: Mac, port: int, when: int) | Entered(a: Mac, when: int) | Expired(a: Mac, when: int)

  datatype World = World(table: map<Mac, Entry>, sent: seq<FlowMod>, history: seq<Event>, now: int)

  datatype Op =
    | Update(src: Mac, port: int, now: int)
    | Lookup(dst: Mac, src: Mac, port: int, now: int)
    | Expire(a: Mac, now: int)

  // ---- the operations -------------------------------------------------------------------------

  /** A new entry, and the flow-mod that adds its rule. */
  function Enter(w: World, a: Mac, port: int): World {
    w.(table := w.table[a := Entry(port, w.now + TIMEOUT)], sent := w.sent + [Add(RuleMatch(a, port), RuleOut(port))])
  }

  /** set_out_port_no: the old rule goes, the port changes, the new rule comes. */
  function SetPort(w: World, a: Mac, port: int): World
    requires a in w.table
  {
    var r := w.(sent := w.sent + [DeleteStrict(RuleMatch(a, w.table[a].port))]);
    Enter(r, a, port)
  }

  function FibUpdate(w: World, src: Mac, port: int): World {
    var r := if src in w.table then SetPort(w, src, port) else Enter(w, src, port);
    r.(history := w.history + [Seen(src, port, w.now)])
  }

  function FibEnter(w: World, dst: Mac): World {
    if dst in w.table then w else Enter(w, dst, FLOOD).(history := w.history + [Entered(dst, w.now)])
  }

  /** A multicast source is refused before anything is learned, a multicast destination after. */
  function FibLookup(w: World, dst: Mac, src: Mac, port: int): World {
    if IsMulticast(src) then w
    else
      var r := FibUpdate(w, src, port);
      if IsMulticast(dst) then r else FibEnter(r, dst)
  }

  function TimerExpired(w: World, a: Mac): World {
    if a !in w.table then w
    else w.(table := w.table - {a}, sent := w.sent + [DeleteStrict(RuleMatch(a, w.table[a].port))],
            history := w.history + [Expired(a, w.now)])
  }

  /** Time does not run backwards, and an entry's timer fires only when due. */
  predicate Enabled(w: World, op: Op) {
    w.now <= op.now && (op.Expire? ==> op.a in w.table ==> w.table[op.a].expires <= op.now)
  }

  function Step(w: World, op: Op): World {
    var v := w.(now := op.now);
    match op
    case Update(src, port, _) => FibUpdate(v, src, port)
    case Lookup(dst, src, port, _) => FibLookup(v, dst, src, port)
    case Expire(a, _) => TimerExpired(v, a)
  }

  predicate Runs(w: World, ops: seq<Op>)
    decreases |ops|
  {
    ops == [] || (Enabled(w, ops[0]) && Runs(Step(w, ops[0]), ops[1..]))
  }

  function Run(w: World, ops: seq<Op>): World
    decreases |ops|
  {
    if ops == [] then w else Run(Step(w, ops[0]), ops[1..])
  }

  function Start(now: int): World {
    World(map[], [], [], now)
  }

  // ---- the mirror -----------------------------------------------------------------------------

  /** Every entry's rule is installed and sends where it should, and there is no other rule. */
  predicate Mirrors(table: map<Mac, Entry>, rules: map<Match, int>) {
    && (forall a :: a in table ==> RuleMatch(a, table[a].port) in rules
                                   && rules[RuleMatch(a, table[a].port)] == RuleOut(table[a].port))
    && (forall m :: m in rules ==> m.a in table && m == RuleMatch(m.a, table[m.a].port))
  }

  lemma RulesAppend(sent: seq<FlowMod>, f: FlowMod)
    ensures Rules(sent + [f]) == if f.Add? then Rules(sent)[f.match_ := f.out] else Rules(sent) - {f.match_}
  {
    assert (sent + [f])[..|sent|] == sent;
  }

  lemma EnterMirrors(w: World, a: Mac, port: int)
    requires Mirrors(w.table - {a}, Rules(w.sent))
    ensures Mirrors(Enter(w, a, port).table, Rules(Enter(w, a, port).sent))
  {
    RulesAppend(w.sent, Add(RuleMatch(a, port), RuleOut(port)));
    hide Rules;
    var v, less := Enter(w, a, port), w.table - {a};
    var rules := Rules(v.sent);
    forall b | b in v.table
      ensures RuleMatch(b, v.table[b].port) in rules && rules[RuleMatch(b, v.table[b].port)] == RuleOut(v.table[b].port)
    {
      assert b != a ==> b in less && less[b] == v.table[b];
    }
    forall m | m in rules ensures m.a in v.table && m == RuleMatch(m.a, v.table[m.a].port) {
      assert m != RuleMatch(a, port) ==> m.a in less && less[m.a] == v.table[m.a];
    }
  }

  lemma DeleteMirrors(table: map<Mac, Entry>, sent: seq<FlowMod>, a: Mac)
    requires Mirrors(table, Rules(sent)) && a in table
    ensures Mirrors(table - {a}, Rules(sent + [DeleteStrict(RuleMatch(a, table[a].port))]))
  {
    RulesAppend(sent, DeleteStrict(RuleMatch(a, table[a].port)));
    hide Rules;
  }

  lemma UpdateMirrors(w: World, src: Mac, port: int)
    requires Mirrors(w.table, Rules(w.sent))
    ensures Mirrors(FibUpdate(w, src, port).table, Rules(FibUpdate(w, src, port).sent))
  {
    hide Mirrors, Rules;
    if src in w.table {
      DeleteMirrors(w.table, w.sent, src);
      EnterMirrors(w.(sent := w.sent + [DeleteStrict(RuleMatch(src, w.table[src].port))]), src, port);
    } else {
      assert w.table - {src} == w.table;
      EnterMirrors(w, src, port);
    }
  }

  lemma FibEnterMirrors(w: World, dst: Mac)
    requires Mirrors(w.table, Rules(w.sent))
    ensures Mirrors(FibEnter(w, dst).table, Rules(FibEnter(w, dst).sent))
  {
    hide Mirrors, Rules;
    if dst !in w.table {
      assert w.table - {dst} == w.table;
      EnterMirrors(w, dst, FLOOD);
    }
  }

  lemma StepMirrors(w: World, op: Op)
    requires Mirrors(w.table, Rules(w.sent))
    ensures Mirrors(Step(w, op).table, Rules(Step(w, op).sent))
  {
    hide Mirrors, Rules, FibUpdate, FibEnter;
    var v := w.(now := op.now);
    match op
    case Update(src, port, _) => UpdateMirrors(v, src, port);
    case Lookup(dst, src, port, _) =>
      UpdateMirrors(v, src, port);
      FibEnterMirrors(FibUpdate(v, src, port), dst);
    case Expire(a, _) =>
      if a in w.table {
        DeleteMirrors(w.table, w.sent, a);
      }
  }

  lemma {:induction false} RunMirrors(w: World, ops: seq<Op>)
    requires Mirrors(w.table, Rules(w.sent))
    ensures Mirrors(Run(w, ops).table, Rules(Run(w, ops).sent))
    decreases |ops|
  {
    if ops != [] {
      StepMirrors(w, ops[0]);
      hide Mirrors, Rules, Step;
      RunMirrors(Step(w, ops[0]), ops[1..]);
    }
  }

  /** After any run the datapath holds exactly one rule per entry, with the match and the output that the
      entry's port dictates, and no others. */
  lemma DatapathMirrorsTable(now: int, ops: seq<Op>)
    ensures var w := Run(Start(now), ops); Mirrors(w.table, Rules(w.sent))
    ensures var w := Run(Start(now), ops); |Rules(w.sent)| == |w.table|
  {
    RunMirrors(Start(now), ops);
    var w := Run(Start(now), ops);
    OneRuleEach(w.table, Rules(w.sent));
  }

  lemma {:induction false} OneRuleEach(table: map<Mac, Entry>, rules: map<Match, int>)
    requires Mirrors(table, rules)
    ensures |rules| == |table|
    decreases |table|
  {
    if a :| a in table {
      var m := RuleMatch(a, table[a].port);
      assert (table - {a}).Keys == table.Keys - {a};
      assert (rules - {m}).Keys == rules.Keys - {m};
      OneRuleEach(table - {a}, rules - {m});
    } else {
      assert table.Keys == {};
      assert rules.Keys == {};
    }
  }

  // ---- what lookups answer --------------------------------------------------------------------

  /** The latest thing that happened to the address; -1 if nothing has. */
  function Latest(h: seq<Event>, a: Mac): (k: int)
    ensures -1 <= k < |h|
    ensures 0 <= k ==> h[k].a == a
    ensures forall j :: k < j < |h| ==> h[j].a != a
  {
    if h == [] then -1
    else if h[|h| - 1].a == a then |h| - 1
    else Latest(h[..|h| - 1], a)
  }

  /** What the table should hold for the address: nothing if it has expired or was never met, its port if
      it was seen last, FLOOD if it was only looked up. */
  predicate Remembers(w: World, a: Mac) {
    var k := Latest(w.history, a);
    if k < 0 || w.history[k].Expired? then a !in w.table
    else
      var port := if w.history[k].Seen? then w.history[k].port else FLOOD;
      a in w.table && w.table[a] == Entry(port, w.history[k].when + 60)
  }

  ghost predicate RemembersAll(w: World) {
    forall a: Mac :: Remembers(w, a)
  }

  lemma LatestAfter(h: seq<Event>, e: Event, a: Mac)
    ensures Latest(h + [e], a) == if e.a == a then |h| else Latest(h, a)
  {
    assert (h + [e])[..|h|] == h;
  }

  /** The history grew by an event of one address, whose entry changed accordingly. */
  lemma EventRemembered(w: World, v: World, e: Event)
    requires RemembersAll(w) && v.history == w.history + [e] && Remembers(v, e.a)
    requires forall b :: b != e.a ==> (b in v.table <==> b in w.table) && (b in w.table ==> v.table[b] == w.table[b])
    ensures RemembersAll(v)
  {
    forall b ensures Remembers(v, b) {
      if b != e.a {
        LatestAfter(w.history, e, b);
        assert Remembers(w, b);
      }
    }
  }

  lemma UpdateRemembered(w: World, src: Mac, port: int)
    requires RemembersAll(w)
    ensures RemembersAll(FibUpdate(w, src, port))
  {
    var v := FibUpdate(w, src, port);
    LatestAfter(w.history, Seen(src, port, w.now), src);
    assert Remembers(v, src);
    EventRemembered(w, v, Seen(src, port, w.now));
  }

  lemma FibEnterRemembered(w: World, dst: Mac)
    requires RemembersAll(w)
    ensures RemembersAll(FibEnter(w, dst))
  {
    var v := FibEnter(w, dst);
    if dst !in w.table {
      LatestAfter(w.history, Entered(dst, w.now), dst);
      assert Remembers(v, dst);
      EventRemembered(w, v, Entered(dst, w.now));
    }
  }

  lemma ExpiryRemembered(w: World, a: Mac)
    requires RemembersAll(w)
    ensures RemembersAll(TimerExpired(w, a))
  {
    var v := TimerExpired(w, a);
    if a in w.table {
      LatestAfter(w.history, Expired(a, w.now), a);
      assert Remembers(v, a);
      EventRemembered(w, v, Expired(a, w.now));
    }
  }

  lemma StepRemembered(w: World, op: Op)
    requires RemembersAll(w)
    ensures RemembersAll(Step(w, op))
  {
    var v := w.(now := op.now);
    forall a ensures Remembers(v, a) {
      assert Remembers(w, a);
    }
    hide RemembersAll, FibUpdate, FibEnter, TimerExpired;
    match op
    case Update(src, port, _) => UpdateRemembered(v, src, port);
    case Lookup(dst, src, port, _) =>
      UpdateRemembered(v, src, port);
      FibEnterRemembered(FibUpdate(v, src, port), dst);
    case Expire(a, _) => ExpiryRemembered(v, a);
  }

  lemma {:induction false} RunRemembered(w: World, ops: seq<Op>)
    requires RemembersAll(w)
    ensures RemembersAll(Run(w, ops))
    decreases |ops|
  {
    if ops != [] {
      StepRemembered(w, ops[0]);
      hide RemembersAll, Step;
      RunRemembered(Step(w, ops[0]), ops[1..]);
    }
  }

  /** The port an address was last seen on, if it has been seen since it last expired, or FLOOD. */
  function LastSeen(h: seq<Event>, a: Mac): int {
    var k := Latest(h, a);
    if 0 <= k && h[k].Seen? then h[k].port else FLOOD
  }

  /** After any run, a lookup between unicast addresses answers the port on which the destination was
      last seen as a source since it last expired, this frame included, or FLOOD. */
  lemma LookupAnswersLastSeen(start: int, ops: seq<Op>, dst: Mac, src: Mac, port: int, now: int)
    requires !IsMulticast(src) && !IsMulticast(dst)
    ensures var w := Run(Start(start), ops); var v := Step(w, Lookup(dst, src, port, now));
            dst in v.table && v.table[dst].port == LastSeen(w.history + [Seen(src, port, now)], dst)
  {
    var w := Run(Start(start), ops);
    assert RemembersAll(Start(start));
    RunRemembered(Start(start), ops);
    var u := FibUpdate(w.(now := now), src, port);
    forall a ensures Remembers(w.(now := now), a) {
      assert Remembers(w, a);
    }
    UpdateRemembered(w.(now := now), src, port);
    assert Remembers(u, dst);
    hide Run, RemembersAll;
    assert u.history == w.history + [Seen(src, port, now)];
  }

  /** Nothing expires early: an address whose latest event is its expiry was last seen, or entered, at
      least 60 seconds before. */
  predicate NoEarlyExpiry(h: seq<Event>) {
    forall k :: 0 <= k < |h| && h[k].Expired? ==>
      var j := Latest(h[..k], h[k].a); 0 <= j && !h[j].Expired? && h[j].when + 60 <= h[k].when
  }

  lemma AppendKeepsExpiry(h: seq<Event>, e: Event)
    requires NoEarlyExpiry(h)
    requires e.Expired? ==> var j := Latest(h, e.a); 0 <= j && !h[j].Expired? && h[j].when + 60 <= e.when
    ensures NoEarlyExpiry(h + [e])
  {
    var g := h + [e];
    forall k | 0 <= k < |g| && g[k].Expired?
      ensures var j := Latest(g[..k], g[k].a); 0 <= j && !g[j].Expired? && g[j].when + 60 <= g[k].when
    {
      assert g[..k] == h[..k];
      assert h[..|h|] == h;
      if k < |h| {
        assert h[k] == g[k];
        var j := Latest(h[..k], h[k].a);
        assert g[j] == h[j];
      }
    }
  }

  lemma StepExpiry(w: World, op: Op)
    requires RemembersAll(w) && NoEarlyExpiry(w.history) && Enabled(w, op)
    ensures NoEarlyExpiry(Step(w, op).history)
  {
    var v := w.(now := op.now);
    match op
    case Update(src, port, now) => AppendKeepsExpiry(w.history, Seen(src, port, now));
    case Lookup(dst, src, port, now) =>
      AppendKeepsExpiry(w.history, Seen(src, port, now));
      AppendKeepsExpiry(FibUpdate(v, src, port).history, Entered(dst, now));
    case Expire(a, now) =>
      assert Remembers(w, a);
      if a in w.table {
        AppendKeepsExpiry(w.history, Expired(a, now));
      }
  }

  lemma {:induction false} RunExpiry(w: World, ops: seq<Op>)
    requires RemembersAll(w) && NoEarlyExpiry(w.history) && Runs(w, ops)
    ensures NoEarlyExpiry(Run(w, ops).history)
    decreases |ops|
  {
    if ops != [] {
      StepExpiry(w, ops[0]);
      StepRemembered(w, ops[0]);
      hide RemembersAll, NoEarlyExpiry, Step, Enabled;
      RunExpiry(Step(w, ops[0]), ops[1..]);
    }
  }

  /** In any run in which timers fire only when due, no entry goes before 60 seconds have passed since its
      address was last seen or entered. */
  lemma EntriesLive(now: int, ops: seq<Op>)
    requires Runs(Start(now), ops)
    ensures NoEarlyExpiry(Run(Start(now), ops).history)
  {
    assert RemembersAll(Start(now));
    RunExpiry(Start(now), ops);
  }

  // ---- what the operations alone tell ---------------------------------------------------------

  /** What has become of the address, or nothing known. */
  datatype Place = Unknown | Flooding | At(port: int)

  function PlaceOf(h: seq<Event>, a: Mac): Place {
    var k := Latest(h, a);
    if k < 0 || h[k].Expired? then Unknown
    else if h[k].Seen? && h[k].port != 0xFFFF_FFFB then At(h[k].port)
    else Flooding
  }

  /** What happens to addresses, told from the operations alone: the source of every frame is seen, unless it is a
      multicast address; the destination of a lookup between unicast addresses is entered if nothing is known
      of it; the timer of an address of which something is known makes it expire. */
  function Told(ops: seq<Op>): seq<Event> {
    if ops == [] then [] else Continued(Told(ops[..|ops| - 1]), ops[|ops| - 1])
  }

  function Continued(h: seq<Event>, op: Op): seq<Event> {
    match op
    case Update(src, port, now) => h + [Seen(src, port, now)]
    case Lookup(dst, src, port, now) =>
      if src[0] % 2 == 1 then h
      else if dst[0] % 2 == 1 || PlaceOf(h + [Seen(src, port, now)], dst) != Unknown then h + [Seen(src, port, now)]
      else h + [Seen(src, port, now)] + [Entered(dst, now)]
    case Expire(a, now) => if PlaceOf(h, a) == Unknown then h else h + [Expired(a, now)]
  }

  lemma PlaceIs(w: World, a: Mac)
    requires Remembers(w, a)
    ensures PlaceOf(w.history, a) == Unknown <==> a !in w.table
    ensures a in w.table ==> PlaceOf(w.history, a) == if w.table[a].port == FLOOD then Flooding else At(w.table[a].port)
  {
  }

  lemma LookupTold(w: World, dst: Mac, src: Mac, port: int)
    requires RemembersAll(w)
    ensures FibLookup(w, dst, src, port).history == Continued(w.history, Lookup(dst, src, port, w.now))
  {
    hide PlaceOf, Remembers;
    UpdateRemembered(w, src, port);
    assert Remembers(FibUpdate(w, src, port), dst);
    PlaceIs(FibUpdate(w, src, port), dst);
  }

  lemma StepTold(w: World, op: Op)
    requires RemembersAll(w)
    ensures Step(w, op).history == Continued(w.history, op)
  {
    hide PlaceOf, Remembers, Enter, SetPort, FibLookup;
    match op
    case Update(_, _, _) =>
    case Expire(a, _) => PlaceIs(w, a);
    case Lookup(dst, src, port, now) =>
      var v := w.(now := now);
      forall a ensures Remembers(v, a) {
        NowIsNoMatter(w, v, a);
      }
      LookupTold(v, dst, src, port);
  }

  lemma ToldNext(ops: seq<Op>, op: Op)
    ensures Told(ops + [op]) == Continued(Told(ops), op)
  {
    assert (ops + [op])[..|ops|] == ops;
  }

  lemma NowIsNoMatter(w: World, v: World, a: Mac)
    requires v == w.(now := v.now)
    ensures Remembers(w, a) <==> Remembers(v, a)
  {
  }

  lemma {:induction false} RunTold(w: World, ops: seq<Op>, before: seq<Op>)
    requires RemembersAll(w) && w.history == Told(before)
    ensures Run(w, ops).history == Told(before + ops)
    decreases |ops|
  {
    hide RemembersAll, Told, Continued, Step;
    if ops == [] {
      assert before + [] == before;
    } else {
      StepRemembered(w, ops[0]);
      StepTold(w, ops[0]);
      ToldNext(before, ops[0]);
      RunTold(Step(w, ops[0]), ops[1..], before + [ops[0]]);
      assert before + [ops[0]] + ops[1..] == before + ops;
    }
  }

  /** The rules of an address are those its place asks for: one that sends frames to it to its port, or one that sends
      frames from it to the controller. */
  predicate AskedFor(rules: map<Match, int>, h: seq<Event>, a: Mac) {
    && (EthDst(a) in rules <==> PlaceOf(h, a).At?)
    && (EthDst(a) in rules ==> rules[EthDst(a)] == PlaceOf(h, a).port)
    && (EthSrc(a) in rules <==> PlaceOf(h, a) == Flooding)
    && (EthSrc(a) in rules ==> rules[EthSrc(a)] == 0xFFFF_FFFD)
  }

  /** After any run the datapath has, for every address last seen as a source on a port since it last expired, the
      rule that sends frames to it out of that port; for every address that has only been asked for since, or
      was seen on the flooding port, the rule that sends frames from it to the controller; and no other rule.
      The operations alone tell which these are. */
  lemma RulesFollowSightings(now: int, ops: seq<Op>)
    ensures Run(Start(now), ops).history == Told(ops)
    ensures forall a: Mac :: AskedFor(Rules(Run(Start(now), ops).sent), Told(ops), a)
  {
    hide Run, Told, Rules, Mirrors, AskedFor, PlaceOf;
    var w := Run(Start(now), ops);
    StartTold(now);
    assert [] + ops == ops;
    RunTold(Start(now), ops, []);
    RunRemembered(Start(now), ops);
    RunMirrors(Start(now), ops);
    forall a: Mac ensures AskedFor(Rules(w.sent), Told(ops), a) {
      assert Remembers(w, a);
      PlaceIs(w, a);
      MirrorsAsked(w.table, Rules(w.sent), w.history, a);
    }
  }

  lemma StartTold(now: int)
    ensures RemembersAll(Start(now)) && Told([]) == [] && Mirrors(Start(now).table, Rules(Start(now).sent))
    ensures Start(now).history == []
  {
  }

  lemma MirrorsAsked(table: map<Mac, Entry>, rules: map<Match, int>, h: seq<Event>, a: Mac)
    requires Mirrors(table, rules)
    requires PlaceOf(h, a) == Unknown <==> a !in table
    requires a in table ==> PlaceOf(h, a) == if table[a].port == FLOOD then Flooding else At(table[a].port)
    ensures AskedFor(rules, h, a)
  {
    hide PlaceOf;
    assert EthDst(a) in rules ==> EthDst(a).a in table && EthDst(a) == RuleMatch(EthDst(a).a, table[EthDst(a).a].port);
    assert EthSrc(a) in rules ==> EthSrc(a).a in table && EthSrc(a) == RuleMatch(EthSrc(a).a, table[EthSrc(a).a].port);
  }

  /** A frame to an address last seen on a port goes out of that port, and of no other. */
  lemma KnownIsReached(now: int, ops: seq<Op>, a: Mac)
    requires PlaceOf(Told(ops), a).At?
    ensures var rules := Rules(Run(Start(now), ops).sent);
            EthDst(a) in rules && rules[EthDst(a)] == PlaceOf(Told(ops), a).port
  {
    hide Run, Rules, Told, PlaceOf;
    RulesFollowSightings(now, ops);
    assert AskedFor(Rules(Run(Start(now), ops).sent), Told(ops), a);
  }

  // ---- the objects ----------------------------------------------------------------------------

  /** The datapath, as the flow-mods sent to it. */
  class Cofdpt {
    var sent: seq<FlowMod>

    constructor ()
      ensures sent == []
    {
      sent := [];
    }

    method SendFlowMod(f: FlowMod)
      modifies this
      ensures sent == old(sent) + [f]
    {
      sent := sent + [f];
    }
  }

  class Cfibentry {
    const dst: Mac
    const dpt: Cofdpt
    var outPortNo: int
    var expires: int

    constructor (dpt: Cofdpt, dst: Mac, outPortNo: int, now: int)
      ensures this.dst == dst && this.dpt == dpt && this.outPortNo == outPortNo && expires == now + TIMEOUT
    {
      this.dpt, this.dst, this.outPortNo, expires := dpt, dst, outPortNo, now + TIMEOUT;
    }

    method FlowModAdd()
      modifies dpt
      ensures dpt.sent == old(dpt.sent) + [Add(RuleMatch(dst, outPortNo), RuleOut(outPortNo))]
    {
      if outPortNo != FLOOD {
        dpt.SendFlowMod(Add(EthDst(dst), outPortNo));
      } else {
        dpt.SendFlowMod(Add(EthSrc(dst), CONTROLLER));
      }
    }

    method FlowModDelete()
      modifies dpt
      ensures dpt.sent == old(dpt.sent) + [DeleteStrict(RuleMatch(dst, outPortNo))]
    {
      if outPortNo != FLOOD {
        dpt.SendFlowMod(DeleteStrict(EthDst(dst)));
      } else {
        dpt.SendFlowMod(DeleteStrict(EthSrc(dst)));
      }
    }

    method SetOutPortNo(port: int, now: int)
      modifies this, dpt
      ensures outPortNo == port && expires == now + TIMEOUT
      ensures dpt.sent == old(dpt.sent) + [DeleteStrict(RuleMatch(dst, old(outPortNo)))]
                          + [Add(RuleMatch(dst, port), RuleOut(port))]
    {
      FlowModDelete();
      outPortNo := port;
      expires := now + TIMEOUT;
      FlowModAdd();
    }
  }

  class Cfib {
    const dpt: Cofdpt
    var fibtable: map<Mac, Cfibentry>
    ghost var history: seq<Event>

    ghost predicate Valid()
      reads this
    {
      forall a :: a in fibtable ==> fibtable[a].dst == a && fibtable[a].dpt == dpt
    }

    ghost function Table(): map<Mac, Entry>
      reads this`fibtable, fibtable.Values
    {
      map a | a in fibtable :: Entry(fibtable[a].outPortNo, fibtable[a].expires)
    }

    ghost function View(now: int): World
      reads this, dpt, fibtable.Values
    {
      World(Table(), dpt.sent, history, now)
    }

    constructor (dpt: Cofdpt)
      requires dpt.sent == []
      ensures Valid() && this.dpt == dpt && fibtable == map[] && forall now :: View(now) == Start(now)
    {
      this.dpt, fibtable, history := dpt, map[], [];
    }

    /** A new entry for the address, and its rule. */
    method AddEntry(a: Mac, port: int, now: int)
      requires Valid()
      modifies this`fibtable, dpt
      ensures Valid() && View(now) == Enter(old(View(now)), a, port)
      ensures a in fibtable
    {
      var entry := new Cfibentry(dpt, a, port, now);
      fibtable := fibtable[a := entry];
      entry.FlowModAdd();
    }

    method Update(src: Mac, port: int, now: int)
      requires Valid()
      modifies this, dpt, fibtable.Values
      ensures Valid() && View(now) == FibUpdate(old(View(now)), src, port)
    {
      hide Table, Enter, SetPort;
      TableHas(src);
      if src !in fibtable {
        AddEntry(src, port, now);
      } else {
        MoveEntry(src, port, now);
      }
      history := history + [Seen(src, port, now)];
    }

    lemma TableHas(a: Mac)
      ensures a in Table() <==> a in fibtable
    {
    }

    method MoveEntry(src: Mac, port: int, now: int)
      requires Valid() && src in fibtable
      modifies dpt, fibtable[src]
      ensures Valid() && src in old(Table()) && View(now) == SetPort(old(View(now)), src, port)
    {
      EntriesDiffer();
      fibtable[src].SetOutPortNo(port, now);
      assert Table() == old(Table())[src := Entry(port, now + TIMEOUT)];
    }

    /** Entries of different addresses are different objects. */
    lemma EntriesDiffer()
      requires Valid()
      ensures forall a, b :: a in fibtable && b in fibtable && a != b ==> fibtable[a] != fibtable[b]
    {
    }

    method EnterUnknown(dst: Mac, now: int)
      requires Valid()
      modifies this, dpt
      ensures Valid() && View(now) == FibEnter(old(View(now)), dst) && dst in fibtable
    {
      if dst !in fibtable {
        AddEntry(dst, FLOOD, now);
        history := history + [Entered(dst, now)];
      }
    }

    /** eFibInval, or the entry for the destination. */
    method Lookup(dst: Mac, src: Mac, port: int, now: int) returns (inval: bool, out: int)
      requires Valid()
      modifies this, dpt, fibtable.Values
      ensures Valid() && View(now) == FibLookup(old(View(now)), dst, src, port)
      ensures inval <==> IsMulticast(src) || IsMulticast(dst)
      ensures !inval ==> dst in fibtable && out == fibtable[dst].outPortNo
    {
      hide FibUpdate, FibEnter;
      if src[0] % 2 == 1 {
        return true, 0;
      }
      Update(src, port, now);
      if dst[0] % 2 == 1 {
        return true, 0;
      }
      EnterUnknown(dst, now);
      return false, fibtable[dst].outPortNo;
    }

    method EntryExpired(a: Mac, now: int)
      requires Valid()
      modifies this, dpt
      ensures Valid() && View(now) == TimerExpired(old(View(now)), a)
    {
      if a in fibtable {
        fibtable[a].FlowModDelete();
        fibtable := fibtable - {a};
        history := history + [Expired(a, now)];
      }
    }
  }
}
