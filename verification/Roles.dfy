/** The roles of a switch's controllers (section A.3.9 of OpenFlow 1.2): who may be master, which role
    requests are stale, and what a slave may not do. */
module Roles {

  /** A controller connection. */
  type Id(==,!new)

  const NOCHANGE: int := 0
  const EQUAL: int := 1
  const MASTER: int := 2
  const SLAVE: int := 3

  // ---- the generation id ----------------------------------------------------------------------

  const WORD: int := 0x1_0000_0000_0000_0000
  const MAX: int := 0xFFFF_FFFF_FFFF_FFFF
  const HALF: int := 0x8000_0000_0000_0000

  predicate IsWord(x: int) { 0 <= x < WORD }

  /** The distance as the code computes it in 64-bit arithmetic: behind the cached id it adds the two. */
  function Dist(gen: int, cached: int): int
    requires IsWord(gen) && IsWord(cached)
  {
    if gen > cached then (gen - cached) % MAX else ((gen + MAX) % WORD + cached) % WORD % MAX
  }

  predicate Stale(gen: int, cached: int)
    requires IsWord(gen) && IsWord(cached)
  {
    Dist(gen, cached) >= MAX / 2
  }

  /** What the standard asks for: the difference, as a signed 64-bit number, is negative. */
  predicate Older(gen: int, cached: int)
    requires IsWord(gen) && IsWord(cached)
  {
    (gen - cached) % WORD >= HALF
  }

  /** The sum of the two words has its top bit set. */
  predicate TopBit(gen: int, cached: int) {
    HALF <= gen + cached < WORD || WORD + HALF <= gen + cached
  }

  lemma StaleAhead(gen: int, cached: int)
    requires IsWord(gen) && IsWord(cached) && gen > cached
    ensures Stale(gen, cached) <==> HALF - 1 <= gen - cached < MAX
    ensures Older(gen, cached) <==> HALF <= gen - cached
  {
    assert (gen - cached) % WORD == gen - cached;
    assert gen - cached < MAX ==> (gen - cached) % MAX == gen - cached;
  }

  lemma StaleBehind(gen: int, cached: int)
    requires IsWord(gen) && IsWord(cached) && gen <= cached
    ensures Stale(gen, cached) <==> TopBit(gen, cached)
    ensures Older(gen, cached) <==> 0 < cached - gen <= HALF
  {
    var a := (gen + MAX) % WORD;
    assert a == if gen == 0 then MAX else gen - 1;
    var b := (a + cached) % WORD;
    assert b == if a + cached >= WORD then a + cached - WORD else a + cached;
    assert b % MAX == if b == MAX then 0 else b;
    assert (gen - cached) % WORD == if gen == cached then 0 else gen - cached + WORD;
  }

  /** Where the code's test gives the standard's answer: everywhere ahead of the cached id but at the
      distances 2^63 - 1 and 2^64 - 1; at the cached id itself in the lower half of either half of the
      range; up to 2^63 behind it where the sum of the two has its top bit set; and further behind where
      the sum does not fit 64 bits. */
  predicate TestsAlike(gen: int, cached: int) {
    if gen > cached then gen - cached != HALF - 1 && gen - cached != MAX
    else if gen == cached then gen < HALF / 2 || HALF <= gen < HALF + HALF / 2
    else if cached - gen <= HALF then HALF <= gen + cached < WORD || WORD + HALF <= gen + cached
    else WORD <= gen + cached
  }

  lemma StaleIsOlderIff(gen: int, cached: int)
    requires IsWord(gen) && IsWord(cached)
    ensures (Stale(gen, cached) <==> Older(gen, cached)) <==> TestsAlike(gen, cached)
  {
    if gen > cached {
      StaleAhead(gen, cached);
    } else {
      StaleBehind(gen, cached);
    }
  }

  /** A request one generation behind is let through while generation ids are small. */
  lemma OldRequestPasses(cached: int)
    requires 0 < cached <= HALF / 2
    ensures Older(cached - 1, cached) && !Stale(cached - 1, cached)
  {
    StaleBehind(cached - 1, cached);
  }

  // ---- the controllers ------------------------------------------------------------------------

  datatype Ctl = Ctl(role: int, initialized: bool, gen: int)

  /** What has happened to roles: a controller joined, or its request for a role was accepted. */
  datatype Event = Joined(id: Id) | Accepted(id: Id, asked: int, gen: int)

  /** The messages that a slave may not send. */
  datatype Kind = FlowMod | GroupMod | PortMod | TableMod | PacketOut | SetConfig | GetConfig

  datatype Op = Join(id: Id) | Leave(id: Id) | RoleRequest(id: Id, role: int, gen: int) | Message(id: Id, kind: Kind)

  datatype World = World(ctls: map<Id, Ctl>, history: seq<Event>, handled: seq<(Id, Kind)>, refused: seq<(Id, Kind)>)

  /** A role request is 32 bits wide and its generation id 64. */
  predicate Enabled(w: World, op: Op) {
    match op
    case Join(id) => id !in w.ctls
    case Leave(id) => id in w.ctls
    case RoleRequest(id, role, gen) => id in w.ctls && 0 <= role < 0x1_0000_0000 && IsWord(gen)
    case Message(id, _) => id in w.ctls
  }

  predicate Tracked(role: int) {
    role == MASTER || role == SLAVE
  }

  /** The request is refused as stale: only for MASTER and SLAVE, and not the first such request. */
  predicate Rejected(c: Ctl, role: int, gen: int)
    requires IsWord(gen) && IsWord(c.gen)
  {
    Tracked(role) && c.initialized && Stale(gen, c.gen)
  }

  /** The role is kept in 16 bits. */
  function Stored(role: int): (r: int)
    ensures 0 <= role < 0x1_0000 ==> r == role
  {
    role % 0x1_0000
  }

  function Demoted(ctls: map<Id, Ctl>, id: Id): map<Id, Ctl> {
    map i | i in ctls :: if i != id && ctls[i].role == MASTER then ctls[i].(role := SLAVE) else ctls[i]
  }

  function Accept(ctls: map<Id, Ctl>, id: Id, role: int, gen: int): map<Id, Ctl>
    requires id in ctls
  {
    var c := ctls[id];
    var d := if Tracked(role) then Ctl(Stored(role), true, gen) else c.(role := Stored(role));
    if Stored(role) == MASTER then Demoted(ctls[id := d], id) else ctls[id := d]
  }

  predicate Words(w: World) {
    forall i :: i in w.ctls ==> IsWord(w.ctls[i].gen)
  }

  function Step(w: World, op: Op): (v: World)
    requires Words(w) && Enabled(w, op)
    ensures Words(v)
  {
    match op
    case Join(id) => w.(ctls := w.ctls[id := Ctl(EQUAL, false, 0)], history := w.history + [Joined(id)])
    case Leave(id) => w.(ctls := w.ctls - {id})
    case RoleRequest(id, role, gen) =>
      if Rejected(w.ctls[id], role, gen) then w
      else w.(ctls := Accept(w.ctls, id, role, gen), history := w.history + [Accepted(id, role, gen)])
    case Message(id, kind) =>
      if w.ctls[id].role == SLAVE then w.(refused := w.refused + [(id, kind)])
      else w.(handled := w.handled + [(id, kind)])
  }

  ghost predicate Runs(w: World, ops: seq<Op>)
    requires Words(w)
    decreases |ops|
  {
    ops == [] || (Enabled(w, ops[0]) && Runs(Step(w, ops[0]), ops[1..]))
  }

  ghost function Run(w: World, ops: seq<Op>): (v: World)
    requires Words(w) && Runs(w, ops)
    ensures Words(v)
    decreases |ops|
  {
    if ops == [] then w else Run(Step(w, ops[0]), ops[1..])
  }

  const INIT := World(map[], [], [], [])

  // ---- what the history says ------------------------------------------------------------------

  /** Where id last joined or had a request accepted; -1 if never. */
  function LastOwn(h: seq<Event>, id: Id): (k: int)
    ensures -1 <= k < |h|
    ensures 0 <= k ==> h[k].id == id
    ensures forall j :: k < j < |h| ==> h[j].id != id
  {
    if h == [] then -1
    else if h[|h| - 1].id == id then |h| - 1
    else LastOwn(h[..|h| - 1], id)
  }

  /** Somebody was accepted as master after position k. */
  predicate MasterSince(h: seq<Event>, k: int) {
    exists j :: k < j < |h| && 0 <= j && h[j].Accepted? && h[j].asked == MASTER
  }

  /** Asks for a role; NOCHANGE does not, and other values name none. */
  predicate IsRole(asked: int) {
    asked == EQUAL || asked == MASTER || asked == SLAVE
  }

  predicate Decides(e: Event) {
    e.Joined? || IsRole(e.asked)
  }

  /** Where id last joined or asked for a role; -1 if never. */
  function LastDecision(h: seq<Event>, id: Id): (k: int)
    ensures -1 <= k < |h|
    ensures 0 <= k ==> h[k].id == id && Decides(h[k])
    ensures forall j :: k < j < |h| ==> !(h[j].id == id && Decides(h[j]))
  {
    if h == [] then -1
    else if h[|h| - 1].id == id && Decides(h[|h| - 1]) then |h| - 1
    else LastDecision(h[..|h| - 1], id)
  }

  /** The role that the standard gives a controller: the one it last asked for, EQUAL if it never did, and
      SLAVE instead of MASTER once another has become master. NOCHANGE changes nothing. */
  function StandardRole(h: seq<Event>, id: Id): (r: int)
    ensures IsRole(r)
  {
    var k := LastDecision(h, id);
    if k < 0 || h[k].Joined? then EQUAL
    else if h[k].asked == MASTER && MasterSince(h, k) then SLAVE
    else h[k].asked
  }

  /** The role that the code keeps: whatever was last accepted, NOCHANGE and unknown values included. */
  function KeptRole(h: seq<Event>, id: Id): int {
    var k := LastOwn(h, id);
    if k < 0 || h[k].Joined? then EQUAL
    else if h[k].asked == MASTER && MasterSince(h, k) then SLAVE
    else h[k].asked
  }

  function CutOne(e: Event): Event {
    if e.Accepted? then Accepted(e.id, Stored(e.asked), e.gen) else e
  }

  /** The history with every request cut to the 16 bits that are kept of it. */
  function Cut(h: seq<Event>): (r: seq<Event>)
    ensures |r| == |h| && forall i :: 0 <= i < |h| ==> r[i] == CutOne(h[i])
  {
    seq(|h|, i requires 0 <= i < |h| => CutOne(h[i]))
  }

  lemma CutAppend(h: seq<Event>, e: Event)
    ensures Cut(h + [e]) == Cut(h) + [CutOne(e)]
  {
  }

  /** Nobody has asked for more than fits 16 bits. */
  predicate Narrow(h: seq<Event>) {
    forall e :: e in h && e.Accepted? ==> 0 <= e.asked < 0x1_0000
  }

  lemma NarrowIsCut(h: seq<Event>)
    requires Narrow(h)
    ensures Cut(h) == h
  {
    forall i | 0 <= i < |h| ensures Cut(h)[i] == h[i] {
      assert h[i] in h;
    }
  }

  /** The last thing id did about its role was joining, or asking for one. */
  predicate Decided(h: seq<Event>, id: Id) {
    var k := LastOwn(h, id);
    k < 0 || Decides(h[k])
  }

  lemma KeptIsStandardIff(h: seq<Event>, id: Id)
    ensures KeptRole(h, id) == StandardRole(h, id) <==> Decided(h, id)
    ensures !Decided(h, id) ==> !IsRole(KeptRole(h, id))
  {
    var k := LastOwn(h, id);
    if Decided(h, id) {
      var l := LastDecision(h, id);
      assert k >= 0 ==> l >= k;
      assert l >= 0 ==> k >= l;
    }
  }

  predicate Faithful(w: World) {
    && Words(w)
    && (forall i :: i in w.ctls ==> w.ctls[i].role == KeptRole(Cut(w.history), i))
    && (forall i :: i in w.ctls ==> 0 <= LastOwn(Cut(w.history), i))
  }

  lemma RoleAfter(h: seq<Event>, e: Event, id: Id)
    requires 0 <= LastOwn(h, id) || e.id == id
    ensures 0 <= LastOwn(h + [e], id)
    ensures KeptRole(h + [e], id) ==
            if e.id == id then (if e.Joined? then EQUAL else e.asked)
            else if e.Accepted? && e.asked == MASTER && KeptRole(h, id) == MASTER then SLAVE
            else KeptRole(h, id)
  {
    var g := h + [e];
    assert g[..|h|] == h;
    if e.id != id {
      var k := LastOwn(h, id);
      assert LastOwn(g, id) == k;
      if MasterSince(h, k) {
        var j :| k < j < |h| && 0 <= j && h[j].Accepted? && h[j].asked == MASTER;
        assert g[j] == h[j];
      }
      if MasterSince(g, k) && !(e.Accepted? && e.asked == MASTER) {
        var j :| k < j < |g| && 0 <= j && g[j].Accepted? && g[j].asked == MASTER;
        assert h[j] == g[j];
      }
      assert e.Accepted? && e.asked == MASTER ==> g[|h|] == e;
    }
  }

  lemma StepFaithful(w: World, op: Op)
    requires Faithful(w) && Enabled(w, op)
    ensures Faithful(Step(w, op))
  {
    var v := Step(w, op);
    if |v.history| > |w.history| {
      var e := v.history[|w.history|];
      assert v.history == w.history + [e];
      CutAppend(w.history, e);
      forall i | i in v.ctls
        ensures v.ctls[i].role == KeptRole(Cut(v.history), i) && 0 <= LastOwn(Cut(v.history), i)
      {
        RoleAfter(Cut(w.history), CutOne(e), i);
      }
    }
  }

  lemma {:induction false} RunFaithful(w: World, ops: seq<Op>)
    requires Faithful(w) && Runs(w, ops)
    ensures Faithful(Run(w, ops))
    decreases |ops|
  {
    if ops != [] {
      StepFaithful(w, ops[0]);
      hide Faithful;
      RunFaithful(Step(w, ops[0]), ops[1..]);
    }
  }

  /** In every run a controller holds the role that the standard gives it, for its requests cut to 16 bits,
      if and only if the last request accepted from it did ask for a role: not NOCHANGE, and no unknown
      value. As long as all requests fit 16 bits they need no cutting. */
  lemma RoleIsStandardIff(ops: seq<Op>, id: Id)
    requires Runs(INIT, ops) && id in Run(INIT, ops).ctls
    ensures var w := Run(INIT, ops);
            w.ctls[id].role == StandardRole(Cut(w.history), id) <==> Decided(Cut(w.history), id)
    ensures var w := Run(INIT, ops);
            Narrow(w.history) ==> (w.ctls[id].role == StandardRole(w.history, id) <==> Decided(w.history, id))
  {
    RunFaithful(INIT, ops);
    var h := Run(INIT, ops).history;
    KeptIsStandardIff(Cut(h), id);
    if Narrow(h) {
      NarrowIsCut(h);
    }
  }

  /** In every run at most one controller is master: the one whose request was the last accepted for
      MASTER. */
  lemma AtMostOneMaster(ops: seq<Op>, a: Id, b: Id)
    requires Runs(INIT, ops)
    ensures var w := Run(INIT, ops);
            a in w.ctls && b in w.ctls && w.ctls[a].role == MASTER && w.ctls[b].role == MASTER ==> a == b
  {
    RunFaithful(INIT, ops);
    var w := Run(INIT, ops);
    var h := Cut(w.history);
    if a in w.ctls && b in w.ctls && w.ctls[a].role == MASTER && w.ctls[b].role == MASTER {
      var i, j := LastOwn(h, a), LastOwn(h, b);
      assert h[i].Accepted? && h[j].Accepted? && h[i].asked == h[j].asked == MASTER;
      assert !MasterSince(h, i) && !MasterSince(h, j);
      assert i == j;
    }
  }

  /** In every run, a message that a slave may not send reaches its handler if and only if the standard
      does not make its sender a slave, or the last request accepted from it asked for no role. */
  lemma GuardsHold(ops: seq<Op>, id: Id, kind: Kind)
    requires Runs(INIT, ops) && id in Run(INIT, ops).ctls
    ensures var w := Run(INIT, ops); var v := Step(w, Message(id, kind)); var h := Cut(w.history);
            && (v.handled == w.handled + [(id, kind)] <==> StandardRole(h, id) != SLAVE || !Decided(h, id))
            && (v.refused == w.refused + [(id, kind)] <==> StandardRole(h, id) == SLAVE && Decided(h, id))
            && v.ctls == w.ctls
  {
    RunFaithful(INIT, ops);
    var w := Run(INIT, ops);
    KeptIsStandardIff(Cut(w.history), id);
    assert |w.handled + [(id, kind)]| == |w.handled| + 1;
    assert |w.refused + [(id, kind)]| == |w.refused| + 1;
  }

  /** A slave that asks for NOCHANGE is a slave no longer: its next flow-mod reaches the handler. */
  lemma NochangeFreesSlave(a: Id)
    ensures var ops := [Join(a), RoleRequest(a, 3, 5), RoleRequest(a, 0, 0), Message(a, FlowMod)];
            && Runs(INIT, ops)
            && StandardRole(Run(INIT, ops).history, a) == 3
            && Run(INIT, ops).handled == [(a, FlowMod)]
    ensures var w := Run(INIT, [Join(a), RoleRequest(a, 3, 5)]); a in w.ctls && w.ctls[a].role == 3
  {
    var ops := [Join(a), RoleRequest(a, 3, 5), RoleRequest(a, 0, 0), Message(a, FlowMod)];
    var w1 := Step(INIT, ops[0]);
    var w2 := Step(w1, ops[1]);
    var w3 := Step(w2, ops[2]);
    var w4 := Step(w3, ops[3]);
    assert ops[1..] == [ops[1], ops[2], ops[3]] && ops[1..][1..] == [ops[2], ops[3]];
    assert ops[1..][1..][1..] == [ops[3]] && ops[1..][1..][1..][1..] == [];
    assert Runs(w3, [ops[3]]) && Runs(w2, [ops[2], ops[3]]);
    assert Run(w2, [ops[2], ops[3]]) == Run(w3, [ops[3]]) == w4;
    var h := [Joined(a), Accepted(a, 3, 5), Accepted(a, 0, 0)];
    assert w4.history == h;
    assert LastDecision(h, a) == 1;
    var two := [ops[0], ops[1]];
    assert two[1..] == [ops[1]] && two[1..][1..] == [];
    assert Run(w1, [ops[1]]) == w2;
  }

  // ---- generation ids ---------------------------------------------------------------------------

  /** Where id last joined, or had a request for MASTER or SLAVE accepted; -1 if never. */
  function LastGeneration(h: seq<Event>, id: Id): (k: int)
    ensures -1 <= k < |h|
    ensures 0 <= k ==> h[k].id == id && (h[k].Joined? || h[k].asked == MASTER || h[k].asked == SLAVE)
    ensures forall j :: k < j < |h| && h[j].id == id ==> h[j].Accepted? && h[j].asked != MASTER && h[j].asked != SLAVE
  {
    if h == [] then -1
    else
      var e := h[|h| - 1];
      if e.id == id && (e.Joined? || e.asked == MASTER || e.asked == SLAVE) then |h| - 1
      else LastGeneration(h[..|h| - 1], id)
  }

  /** A generation id is known of the controller since it joined: the one of the last request accepted from it
      for MASTER or SLAVE. */
  predicate Known(h: seq<Event>, id: Id) {
    LastGeneration(h, id) >= 0 && h[LastGeneration(h, id)].Accepted?
  }

  function Generation(h: seq<Event>, id: Id): int
    requires Known(h, id)
  {
    h[LastGeneration(h, id)].gen
  }

  /** What is accepted, told from the requests alone: every request but those for MASTER or SLAVE that test as
      stale against the generation id known. */
  function Told(ops: seq<Op>): seq<Event> {
    if ops == [] then []
    else
      var h := Told(ops[..|ops| - 1]);
      match ops[|ops| - 1]
      case Join(id) => h + [Joined(id)]
      case RoleRequest(id, role, gen) =>
        if (role == MASTER || role == SLAVE) && Known(h, id) && StaleBehindKnown(gen, h, id) then h
        else h + [Accepted(id, role, gen)]
      case _ => h
  }

  predicate StaleBehindKnown(gen: int, h: seq<Event>, id: Id)
    requires Known(h, id)
  {
    IsWord(gen) && IsWord(Generation(h, id)) && Stale(gen, Generation(h, id))
  }

  /** The code's cached id is the one known. */
  predicate Cached(w: World) {
    forall i :: i in w.ctls ==>
      && (w.ctls[i].initialized <==> Known(w.history, i))
      && (Known(w.history, i) ==> w.ctls[i].gen == Generation(w.history, i))
  }

  lemma GenerationAfter(h: seq<Event>, e: Event, id: Id)
    ensures Known(h + [e], id) <==>
            if e.id == id && e.Joined? then false
            else if e.id == id && (e.asked == MASTER || e.asked == SLAVE) then true
            else Known(h, id)
    ensures Known(h + [e], id) ==>
              Generation(h + [e], id) ==
              if e.id == id && (e.asked == MASTER || e.asked == SLAVE) then e.gen else Generation(h, id)
  {
    var g := h + [e];
    assert g[..|h|] == h;
    var k := LastGeneration(h, id);
    assert k >= 0 ==> g[k] == h[k];
  }

  lemma StepCached(w: World, op: Op)
    requires Words(w) && Cached(w) && Enabled(w, op)
    ensures Cached(Step(w, op))
  {
    hide Known, Generation, Stale;
    var v := Step(w, op);
    if |v.history| > |w.history| {
      var e := v.history[|w.history|];
      assert v.history == w.history + [e];
      forall i | i in v.ctls
        ensures (v.ctls[i].initialized <==> Known(v.history, i))
                && (Known(v.history, i) ==> v.ctls[i].gen == Generation(v.history, i))
      {
        GenerationAfter(w.history, e, i);
      }
    }
  }

  lemma StepTold(w: World, op: Op, ops: seq<Op>)
    requires Words(w) && Cached(w) && Enabled(w, op) && w.history == Told(ops)
    ensures Step(w, op).history == Told(ops + [op])
  {
    hide Known, Generation, Stale;
    assert (ops + [op])[..|ops|] == ops;
  }

  lemma {:induction false} RunTold(w: World, ops: seq<Op>, before: seq<Op>)
    requires Words(w) && Cached(w) && Runs(w, ops) && w.history == Told(before)
    ensures Cached(Run(w, ops)) && Run(w, ops).history == Told(before + ops)
    decreases |ops|
  {
    hide Cached, Told, Enabled, Step;
    if ops == [] {
      assert before + [] == before;
    } else {
      StepCached(w, ops[0]);
      StepTold(w, ops[0], before);
      RunTold(Step(w, ops[0]), ops[1..], before + [ops[0]]);
      assert before + [ops[0]] + ops[1..] == before + ops;
    }
  }

  /** In every run, what has been accepted is told by the requests alone, and the generation id kept for a
      controller is the one of the last request accepted from it for MASTER or SLAVE since it joined; none is
      kept before the first. */
  lemma GenerationKept(ops: seq<Op>, id: Id)
    requires Runs(INIT, ops)
    ensures var w := Run(INIT, ops);
            && w.history == Told(ops)
            && (id in w.ctls ==>
                  && (w.ctls[id].initialized <==> Known(w.history, id))
                  && (Known(w.history, id) ==> w.ctls[id].gen == Generation(w.history, id)))
  {
    assert Told([]) == [] && [] + ops == ops;
    RunTold(INIT, ops, []);
  }

  /** The controller has joined, and not left since. */
  predicate Present(ops: seq<Op>, id: Id) {
    ops != []
    && match ops[|ops| - 1]
       case Join(i) => i == id || Present(ops[..|ops| - 1], id)
       case Leave(i) => i != id && Present(ops[..|ops| - 1], id)
       case _ => Present(ops[..|ops| - 1], id)
  }

  lemma StepPresent(w: World, op: Op, before: seq<Op>, id: Id)
    requires Words(w) && Enabled(w, op) && (id in w.ctls <==> Present(before, id))
    ensures id in Step(w, op).ctls <==> Present(before + [op], id)
  {
    hide Stale, Stored;
    assert (before + [op])[..|before|] == before;
  }

  lemma {:induction false} RunPresent(w: World, ops: seq<Op>, before: seq<Op>, id: Id)
    requires Words(w) && Runs(w, ops) && (id in w.ctls <==> Present(before, id))
    ensures id in Run(w, ops).ctls <==> Present(before + ops, id)
    decreases |ops|
  {
    hide Step, Enabled, Present;
    if ops == [] {
      assert before + [] == before;
    } else {
      StepPresent(w, ops[0], before, id);
      RunPresent(Step(w, ops[0]), ops[1..], before + [ops[0]], id);
      assert before + [ops[0]] + ops[1..] == before + ops;
    }
  }

  /** In every run those controllers are known that have joined and not left since, and one that joins begins with
      role 1, EQUAL, whatever became of it before; nobody else's role changes. */
  lemma MembersAsTold(ops: seq<Op>, id: Id)
    requires Runs(INIT, ops)
    ensures id in Run(INIT, ops).ctls <==> Present(ops, id)
    ensures var w := Run(INIT, ops); !Present(ops, id) ==>
              && Enabled(w, Join(id))
              && Step(w, Join(id)).ctls == w.ctls[id := Ctl(1, false, 0)]
  {
    RunPresent(INIT, ops, [], id);
    assert [] + ops == ops;
  }

  /** Nobody's role is another one than before. */
  predicate SameRoles(w: World, v: World) {
    forall i :: i in w.ctls ==> i in v.ctls && v.ctls[i].role == w.ctls[i].role
  }

  /** In every run a request that is stale against the generation id known changes no controller's role if and
      only if it asks, in all its 32 bits, for MASTER or SLAVE, or the 16 bits that are kept of it name the role
      its sender holds. */
  lemma StaleKeepsRolesIff(ops: seq<Op>, id: Id, role: int, gen: int)
    requires Runs(INIT, ops) && Enabled(Run(INIT, ops), RoleRequest(id, role, gen))
    requires Known(Told(ops), id) && StaleBehindKnown(gen, Told(ops), id)
    ensures var w := Run(INIT, ops);
            SameRoles(w, Step(w, RoleRequest(id, role, gen)))
            <==> role == MASTER || role == SLAVE || role % 0x1_0000 == w.ctls[id].role
  {
    GenerationKept(ops, id);
    var w := Run(INIT, ops);
    var v := Step(w, RoleRequest(id, role, gen));
    hide Runs, Run, Stale, Known, Generation, Told;
    if Stored(role) == w.ctls[id].role == MASTER {
      forall i | i in w.ctls ensures i in v.ctls && v.ctls[i].role == w.ctls[i].role {
        AtMostOneMaster(ops, i, id);
      }
    }
  }

  /** In every run a request that is not stale, or for neither MASTER nor SLAVE, gives its sender the role it
      asks for, cut to 16 bits. */
  lemma FreshIsAccepted(ops: seq<Op>, id: Id, role: int, gen: int)
    requires Runs(INIT, ops) && Enabled(Run(INIT, ops), RoleRequest(id, role, gen))
    requires (role == MASTER || role == SLAVE) && Known(Told(ops), id) ==> !StaleBehindKnown(gen, Told(ops), id)
    ensures var v := Step(Run(INIT, ops), RoleRequest(id, role, gen));
            id in v.ctls && v.ctls[id].role == role % 0x1_0000
  {
    GenerationKept(ops, id);
    hide Runs, Run, Stale, Known, Generation, Told;
  }

  /** A request of an older generation, by the test, is refused: the slave stays a slave. */
  lemma StaleIsRefused(a: Id)
    ensures var ops := [Join(a), RoleRequest(a, 3, 0x8000_0000_0000_000A), RoleRequest(a, 2, 5)];
            && Runs(INIT, ops) && a in Run(INIT, ops).ctls
            && Run(INIT, ops).ctls[a] == Ctl(3, true, 0x8000_0000_0000_000A)
  {
    var ops := [Join(a), RoleRequest(a, 3, 0x8000_0000_0000_000A), RoleRequest(a, 2, 5)];
    StaleBehind(5, 10 + HALF);
    var w1 := Step(INIT, ops[0]);
    var w2 := Step(w1, ops[1]);
    assert w2.ctls[a] == Ctl(SLAVE, true, 10 + HALF);
    assert Step(w2, ops[2]) == w2;
    hide *;
    RunCons(w2, ops[2], []);
    RunNone(w2);
    RunCons(w1, ops[1], [ops[2]]);
    RunCons(INIT, ops[0], [ops[1], ops[2]]);
    assert [ops[1]] + [ops[2]] == [ops[1], ops[2]] && [ops[0]] + [ops[1], ops[2]] == ops && [ops[2]] + [] == [ops[2]];
  }

  /** The numbers on the wire: of two controllers that ask for role 2 the first ends with role 3, and what it
      then sends is refused. */
  lemma SecondMasterDemotes(a: Id, b: Id)
    requires a != b
    ensures var ops := [Join(a), Join(b), RoleRequest(a, 2, 5), RoleRequest(b, 2, 6), Message(a, FlowMod)];
            && Runs(INIT, ops)
            && var w := Run(INIT, ops);
            && a in w.ctls && w.ctls[a].role == 3 && b in w.ctls && w.ctls[b].role == 2
            && w.refused == [(a, FlowMod)] && w.handled == []
  {
    var ops := [Join(a), Join(b), RoleRequest(a, 2, 5), RoleRequest(b, 2, 6), Message(a, FlowMod)];
    var w1 := Step(INIT, ops[0]);
    var w2 := Step(w1, ops[1]);
    var w3 := Step(w2, ops[2]);
    var w4 := Step(w3, ops[3]);
    var w5 := Step(w4, ops[4]);
    assert w4.ctls[a].role == 3 && w4.ctls[b].role == 2;
    assert w5.refused == [(a, FlowMod)];
    hide *;
    RunCons(w4, ops[4], []);
    RunNone(w5);
    RunCons(w3, ops[3], [ops[4]]);
    RunCons(w2, ops[2], [ops[3], ops[4]]);
    RunCons(w1, ops[1], [ops[2], ops[3], ops[4]]);
    RunCons(INIT, ops[0], [ops[1], ops[2], ops[3], ops[4]]);
    assert [ops[4]] + [] == [ops[4]] && [ops[3]] + [ops[4]] == [ops[3], ops[4]];
    assert [ops[2]] + [ops[3], ops[4]] == [ops[2], ops[3], ops[4]];
    assert [ops[1]] + [ops[2], ops[3], ops[4]] == [ops[1], ops[2], ops[3], ops[4]];
    assert [ops[0]] + [ops[1], ops[2], ops[3], ops[4]] == ops;
  }

  /** A slave whose request is stale, for MASTER with a bit set above the 16 that are kept, becomes master. */
  lemma StaleWideMakesMaster(a: Id)
    ensures var ops := [Join(a), RoleRequest(a, SLAVE, 5), RoleRequest(a, 0x1_0000 + MASTER, 5 + HALF)];
            && Stale(5 + HALF, 5) && Runs(INIT, ops)
            && a in Run(INIT, ops).ctls && Run(INIT, ops).ctls[a].role == MASTER
  {
    var ops := [Join(a), RoleRequest(a, SLAVE, 5), RoleRequest(a, 0x1_0000 + MASTER, 5 + HALF)];
    StaleAhead(5 + HALF, 5);
    var w1 := Step(INIT, ops[0]);
    var w2 := Step(w1, ops[1]);
    assert w2.ctls[a] == Ctl(SLAVE, true, 5);
    var w3 := Step(w2, ops[2]);
    assert w3.ctls[a].role == MASTER;
    hide *;
    RunCons(w2, ops[2], []);
    RunNone(w3);
    RunCons(w1, ops[1], [ops[2]]);
    RunCons(INIT, ops[0], [ops[1], ops[2]]);
    assert [ops[1]] + [ops[2]] == [ops[1], ops[2]] && [ops[0]] + [ops[1], ops[2]] == ops && [ops[2]] + [] == [ops[2]];
  }

  lemma RunNone(w: World)
    requires Words(w)
    ensures Runs(w, []) && Run(w, []) == w
  {
  }

  lemma RunCons(w: World, op: Op, ops: seq<Op>)
    requires Words(w) && Enabled(w, op) && Runs(Step(w, op), ops)
    ensures Runs(w, [op] + ops) && Run(w, [op] + ops) == Run(Step(w, op), ops)
  {
    assert ([op] + ops)[1..] == ops;
  }

  /** Of all 32-bit roles, those by which a stale request still makes a master: the lower half names it
      and the upper half is not zero. */
  lemma StaleMakesMasterIff(w: World, id: Id, role: int, gen: int)
    requires Words(w) && Enabled(w, RoleRequest(id, role, gen))
    requires w.ctls[id].initialized && Stale(gen, w.ctls[id].gen) && w.ctls[id].role != MASTER
    ensures Step(w, RoleRequest(id, role, gen)).ctls[id].role == MASTER
            <==> role % 0x1_0000 == MASTER && role >= 0x1_0000
  {
  }

  // ---- the objects ----------------------------------------------------------------------------

  class Cofctl {
    const id: Id
    var role: int
    var roleInitialized: bool
    var cachedGenerationId: int

    constructor (id: Id)
      ensures this.id == id && Value() == Ctl(EQUAL, false, 0)
    {
      this.id := id;
      role, roleInitialized, cachedGenerationId := EQUAL, false, 0;
    }

    ghost function Value(): Ctl
      reads this
    {
      Ctl(role, roleInitialized, cachedGenerationId)
    }
  }

  class Crofbase {
    var ofctlSet: set<Cofctl>

    constructor ()
      ensures ofctlSet == {}
    {
      ofctlSet := {};
    }

    /** Distinct members have distinct identities. */
    ghost predicate Valid()
      reads this, ofctlSet
    {
      && (forall c, d :: c in ofctlSet && d in ofctlSet && c.id == d.id ==> c == d)
      && (forall c :: c in ofctlSet ==> IsWord(c.cachedGenerationId))
    }

    ghost function Ctls(): map<Id, Ctl>
      reads this, ofctlSet
      requires Valid()
    {
      map c | c in ofctlSet :: c.id := c.Value()
    }

    /** Every master but ctl becomes a slave. */
    method RoleRequestRcvd(ctl: Cofctl, role: int)
      requires Valid() && ctl in ofctlSet
      modifies ofctlSet`role
      ensures Valid() && Ctls() == if role == MASTER then Demoted(old(Ctls()), ctl.id) else old(Ctls())
    {
      if role == MASTER {
        var todo := ofctlSet;
        while exists c :: c in todo
          invariant todo <= ofctlSet
          invariant forall c :: c in ofctlSet ==>
                      c.role == if c !in todo && c != ctl && old(c.role) == MASTER then SLAVE else old(c.role)
          decreases |todo|
        {
          var c :| c in todo;
          todo := todo - {c};
          if c != ctl && c.role == MASTER {
            c.role := SLAVE;
          }
        }
      }
    }

    method ReceiveRoleRequest(ctl: Cofctl, asked: int, gen: int) returns (stale: bool)
      requires Valid() && ctl in ofctlSet && 0 <= asked < 0x1_0000_0000 && IsWord(gen)
      modifies ofctlSet
      ensures Valid() && ctl in ofctlSet && (stale <==> Rejected(old(ctl.Value()), asked, gen))
      ensures Ctls() == if stale then old(Ctls()) else Accept(old(Ctls()), ctl.id, asked, gen)
    {
      if asked == MASTER || asked == SLAVE {
        if ctl.roleInitialized {
          var cached := ctl.cachedGenerationId;
          var dist := if gen > cached then (gen - cached) % MAX else ((gen + MAX) % WORD + cached) % WORD % MAX;
          if dist >= MAX / 2 {
            return true;
          }
        } else {
          ctl.roleInitialized := true;
        }
        ctl.cachedGenerationId := gen;
      }
      ctl.role := asked % 0x1_0000;
      assert Ctls() == old(Ctls())[ctl.id := ctl.Value()];
      RoleRequestRcvd(ctl, ctl.role);
      return false;
    }
  }
}
