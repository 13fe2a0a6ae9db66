/** What one pass over the descriptors does, seen from outside: which descriptors it looks at, and which
    handlers it calls for them. */
module DescriptorPasses {
  import opened EventLoop

  /** The two passes: over the descriptors registered for reading, and over those registered for writing. */
  datatype Pass = Reading | Writing

  /** Between two descriptors of the pass, or in a handler that it has called. */
  predicate At(pc: Control, w: Pass) {
    if w.Reading? then pc.ReadFds? || pc.InRead? else pc.WriteFds? || pc.InWrite?
  }

  predicate InHandlerOf(pc: Control, w: Pass) {
    if w.Reading? then pc.InRead? else pc.InWrite?
  }

  function Table(l: Lists, w: Pass): map<Fd, Obj> {
    if w.Reading? then l.rfds else l.wfds
  }

  datatype Owner = Nobody | Somebody(o: Obj)

  /** The live object for which the descriptor is registered. */
  function OwnerOf(s: State, w: Pass, fd: Fd): Owner {
    if fd in Table(s.lists, w) && Table(s.lists, w)[fd] in s.hist.alive then Somebody(Table(s.lists, w)[fd]) else Nobody
  }

  /** A descriptor at its turn: whether it is found ready, and for whom it is registered then. */
  datatype Turn = Turn(fd: Fd, ready: bool, owner: Owner)

  /** A handler call: the object, and the descriptor it is told. */
  datatype Call = Call(o: Obj, fd: Fd)

  /** The loop thread turns to the next descriptor. */
  predicate IsTurn(s: State, a: Action, w: Pass) {
    && a.Polling? && (if w.Reading? then s.pc.ReadFds? && a.l.ReadNext? else s.pc.WriteFds? && a.l.WriteNext?)
    && s.pc.fds != []
  }

  function TurnOf(s: State, a: Action, w: Pass): Turn
    requires IsTurn(s, a, w)
  {
    Turn(s.pc.fds[0], a.l.ready, OwnerOf(s, w, s.pc.fds[0]))
  }

  ghost function Turns(s: State, acts: seq<Action>, w: Pass): seq<Turn>
    requires Runs(s, acts)
    decreases |acts|
  {
    if acts == [] then []
    else (if IsTurn(s, acts[0], w) then [TurnOf(s, acts[0], w)] else []) + Turns(Step(s, acts[0]), acts[1..], w)
  }

  /** The handler calls that a run makes: wherever the control goes into a handler. */
  ghost function Calls(s: State, acts: seq<Action>, w: Pass): seq<Call>
    requires Runs(s, acts)
    decreases |acts|
  {
    if acts == [] then []
    else
      var q := Step(s, acts[0]);
      (if InHandlerOf(q.pc, w) && !InHandlerOf(s.pc, w) then [Call(q.pc.o, q.pc.fd)] else []) + Calls(q, acts[1..], w)
  }

  /** The calls that these turns ask for: one for each descriptor ready and registered for a live object. */
  function Wanted(ts: seq<Turn>): seq<Call> {
    if ts == [] then []
    else (if ts[0].ready && ts[0].owner.Somebody? then [Call(ts[0].owner.o, ts[0].fd)] else []) + Wanted(ts[1..])
  }

  function Fds(ts: seq<Turn>): seq<Fd> {
    if ts == [] then [] else [ts[0].fd] + Fds(ts[1..])
  }

  /** The run is the rest of a pass, to the step with which the pass is over. */
  ghost predicate RestOfPass(s: State, acts: seq<Action>, w: Pass)
    requires Runs(s, acts)
    decreases |acts|
  {
    if acts == [] then !At(s.pc, w) else At(s.pc, w) && RestOfPass(Step(s, acts[0]), acts[1..], w)
  }

  // ---- one step -----------------------------------------------------------------------------

  lemma TurnCalls(s: State, a: Action, w: Pass)
    requires Lifetimes(s) && IsTurn(s, a, w) && Enabled(s, a)
    ensures var q := Step(s, a); var t := TurnOf(s, a, w);
            && At(q.pc, w) && q.pc.fds == s.pc.fds[1..]
            && (InHandlerOf(q.pc, w) <==> t.ready && t.owner.Somebody?)
            && (InHandlerOf(q.pc, w) ==> q.pc.o == t.owner.o && q.pc.fd == t.fd)
  {
    var fd := s.pc.fds[0];
    assert fd in Table(s.lists, w) ==>
             Table(s.lists, w)[fd] in s.hist.alive && Table(s.lists, w)[fd] !in s.lists.deletion;
  }

  lemma ElseCallsNothing(s: State, a: Action, w: Pass)
    requires At(s.pc, w) && !IsTurn(s, a, w) && Enabled(s, a)
    ensures var q := Step(s, a);
            && (InHandlerOf(q.pc, w) ==> InHandlerOf(s.pc, w))
            && if At(q.pc, w) then q.pc.fds == s.pc.fds else s.pc.fds == []
  {
  }

  /** A pass looks at the descriptors it has still before it, in that order, and calls the handlers wanted. */
  lemma {:induction false} PassGoesOn(s: State, acts: seq<Action>, w: Pass)
    requires Inv(s) && Runs(s, acts) && RestOfPass(s, acts, w) && At(s.pc, w)
    ensures Fds(Turns(s, acts, w)) == s.pc.fds && Calls(s, acts, w) == Wanted(Turns(s, acts, w))
    decreases |acts|
  {
    hide Inv, Enabled, Step, OwnerOf, Wanted, Fds;
    assert acts != [];
    var a, q := acts[0], Step(s, acts[0]);
    StepKeeps(s, a);
    var ts := Turns(q, acts[1..], w);
    if At(q.pc, w) {
      PassGoesOn(q, acts[1..], w);
    } else {
      PassIsOver(q, acts[1..], w);
    }
    if IsTurn(s, a, w) {
      InvLifetimes(s);
      TurnCalls(s, a, w);
      var t := TurnOf(s, a, w);
      assert Turns(s, acts, w) == [t] + ts;
      OneMoreTurn(t, ts);
      assert s.pc.fds == [s.pc.fds[0]] + s.pc.fds[1..];
    } else {
      ElseCallsNothing(s, a, w);
      assert [] + ts == ts && [] + Calls(q, acts[1..], w) == Calls(q, acts[1..], w);
    }
  }

  lemma OneMoreTurn(t: Turn, ts: seq<Turn>)
    ensures Fds([t] + ts) == [t.fd] + Fds(ts)
    ensures Wanted([t] + ts) == (if t.ready && t.owner.Somebody? then [Call(t.owner.o, t.fd)] else []) + Wanted(ts)
  {
    assert ([t] + ts)[1..] == ts;
  }

  lemma InvLifetimes(s: State)
    requires Inv(s)
    ensures Lifetimes(s)
  {
  }

  lemma PassIsOver(s: State, acts: seq<Action>, w: Pass)
    requires Runs(s, acts) && RestOfPass(s, acts, w) && !At(s.pc, w)
    ensures acts == [] && Turns(s, acts, w) == [] && Calls(s, acts, w) == []
    ensures Fds([]) == [] && Wanted([]) == []
  {
  }

  // ---- a whole pass ---------------------------------------------------------------------------

  predicate Ascending(fds: seq<Fd>) {
    forall i, j :: 0 <= i < j < |fds| ==> fds[i] < fds[j]
  }

  lemma {:induction false} SortedKeysAre(ks: set<Fd>)
    ensures Ascending(SortedKeys(ks)) && forall k :: k in SortedKeys(ks) <==> k in ks
    decreases |ks|
  {
    if exists k :: k in ks {
      LeastExists(ks);
      var k := SortedKeys(ks)[0];
      var rest := SortedKeys(ks - {k});
      assert Least(ks, k) && SortedKeys(ks) == [k] + rest;
      SortedKeysAre(ks - {k});
      LeastBefore(ks, k, rest);
    }
  }

  lemma LeastBefore(ks: set<Fd>, k: Fd, rest: seq<Fd>)
    requires Least(ks, k) && Ascending(rest) && forall j :: j in rest <==> j in ks - {k}
    ensures Ascending([k] + rest) && forall j :: j in [k] + rest <==> j in ks
  {
    forall i, j | 0 <= i < j < |[k] + rest| ensures ([k] + rest)[i] < ([k] + rest)[j] {
      assert rest[j - 1] in rest && ([k] + rest)[j] == rest[j - 1];
    }
  }

  predicate InOrder(cs: seq<Call>) {
    forall i, j :: 0 <= i < j < |cs| ==> cs[i].fd < cs[j].fd
  }

  /** What is said of a pass that began in s: it looked once at each descriptor registered then, in ascending
      order, and called, in that order and once, exactly the handlers of those that were ready and registered
      for a live object at their turn, each for its own descriptor. */
  ghost predicate Served(s: State, acts: seq<Action>, w: Pass)
    requires Runs(s, acts)
  {
    var ts, cs := Turns(s, acts, w), Calls(s, acts, w);
    && Ascending(Fds(ts)) && (forall fd :: fd in Fds(ts) <==> fd in Table(s.lists, w))
    && InOrder(cs) && (forall o, fd :: Call(o, fd) in cs <==> Turn(fd, true, Somebody(o)) in ts)
  }

  lemma {:induction false} WantedIs(ts: seq<Turn>)
    requires Ascending(Fds(ts))
    ensures InOrder(Wanted(ts)) && forall o, fd :: Call(o, fd) in Wanted(ts) <==> Turn(fd, true, Somebody(o)) in ts
    ensures forall fd :: fd in Fds(ts) <==> exists t :: t in ts && t.fd == fd
  {
    if ts != [] {
      var t, rest := ts[0], ts[1..];
      assert ts == [t] + rest && Fds(ts) == [t.fd] + Fds(rest) && Fds(ts)[1..] == Fds(rest);
      WantedIs(rest);
      forall c | c in Wanted(rest) ensures t.fd < c.fd {
        assert Turn(c.fd, true, Somebody(c.o)) in rest && Turn(c.fd, true, Somebody(c.o)).fd == c.fd;
        assert c.fd in Fds(rest);
        var i :| 0 <= i < |Fds(rest)| && Fds(rest)[i] == c.fd;
        assert Fds(ts)[i + 1] == c.fd && Fds(ts)[0] == t.fd;
      }
    }
  }

  /** The step with which the pass begins: out of the sleep or the event pass, or out of the read pass. */
  ghost predicate Begins(s: State, a: Action, w: Pass) {
    && Enabled(s, a)
    && if w.Reading? then a == Polling(StartFds) || a == EventPass(ReceiveToken)
       else s.pc.ReadFds? && Step(s, a).pc.WriteFds?
  }

  lemma BeginsWithAll(s: State, a: Action, w: Pass)
    requires Begins(s, a, w)
    ensures var q := Step(s, a); At(q.pc, w) && q.pc.fds == SortedKeys(Table(q.lists, w).Keys)
  {
  }

  /** In every run, whatever other threads do and whatever the handlers register, deregister, create and destroy:
      a pass over the descriptors looks once at each descriptor that was registered when it began, in ascending
      order, and calls the handler of exactly those that are ready and still registered for a live object at
      their turn. Nothing else calls such a handler. */
  lemma PassServes(before: seq<Action>, begin: Action, acts: seq<Action>, w: Pass)
    requires Runs(INIT, before) && Begins(After(INIT, before), begin, w)
    requires Runs(Step(After(INIT, before), begin), acts) && RestOfPass(Step(After(INIT, before), begin), acts, w)
    ensures Served(Step(After(INIT, before), begin), acts, w)
  {
    hide Inv, Enabled, Step, Turns, Calls, Wanted, Fds;
    var s0 := After(INIT, before);
    var s := Step(s0, begin);
    InitInv();
    RunKeeps(INIT, before);
    StepKeeps(s0, begin);
    BeginsWithAll(s0, begin, w);
    PassGoesOn(s, acts, w);
    SortedKeysAre(Table(s.lists, w).Keys);
    WantedIs(Turns(s, acts, w));
  }

  /** Where a pass ends: the read pass where the write pass begins, the write pass at the top of the loop. */
  lemma PassLeadsOn(s: State, a: Action, w: Pass)
    requires At(s.pc, w) && Enabled(s, a) && !At(Step(s, a).pc, w)
    ensures if w.Reading? then Begins(s, a, Writing) else Step(s, a).pc == Top
  {
  }

  /** The descriptors still before the pass, twice, and the handler under way. */
  function PassLeft(pc: Control): nat {
    match pc
    case ReadFds(fds) => 2 * |fds|
    case InRead(_, _, fds) => 2 * |fds| + 1
    case WriteFds(fds) => 2 * |fds|
    case InWrite(_, _, fds) => 2 * |fds| + 1
    case _ => 0
  }

  /** A pass ends: every step of the loop's own brings it closer, and no other step sets it back. */
  lemma PassComesToEnd(s: State, a: Action, w: Pass)
    requires At(s.pc, w) && Enabled(s, a)
    ensures var q := Step(s, a);
            if a.Polling? then !At(q.pc, w) || PassLeft(q.pc) < PassLeft(s.pc) else q.pc == s.pc
  {
  }

  // ---- what is registered ---------------------------------------------------------------------

  /** For whom a descriptor is registered after these actions, as they say it: for the object that registered it
      last, unless it was deregistered or the object destroyed since. */
  function Registrant(acts: seq<Action>, w: Pass, fd: Fd): Owner {
    if acts == [] then Nobody
    else
      var before, a := Registrant(acts[..|acts| - 1], w, fd), acts[|acts| - 1];
      if a.Handler? then Changed(before, a.w, w, fd) else before
  }

  function Changed(before: Owner, a: Work, w: Pass, fd: Fd): Owner {
    match a
    case RegisterR(o, f) => if w.Reading? && f == fd then Somebody(o) else before
    case RegisterW(o, f) => if w.Writing? && f == fd then Somebody(o) else before
    case DeregisterR(f) => if w.Reading? && f == fd then Nobody else before
    case DeregisterW(f) => if w.Writing? && f == fd then Nobody else before
    case Destroy(o) => if before == Somebody(o) then Nobody else before
    case Create(_) => before
  }

  lemma OwnerIsRegistered(s: State, w: Pass, fd: Fd)
    requires Lifetimes(s)
    ensures OwnerOf(s, w, fd) == if fd in Table(s.lists, w) then Somebody(Table(s.lists, w)[fd]) else Nobody
  {
  }

  /** The descriptor maps hold no destroyed object, so that passes find nothing to strike from them. */
  lemma NothingPurged(s: State, l: Poll)
    requires Lifetimes(s) && CanPoll(s.lists, s.pc, l)
    ensures PollLists(s.lists, s.pc, l).rfds == s.lists.rfds && PollLists(s.lists, s.pc, l).wfds == s.lists.wfds
  {
    var m, n := s.lists.rfds, s.lists.wfds;
    assert forall fd :: fd in m ==> m[fd] in s.hist.alive && m[fd] !in s.lists.deletion;
    assert forall fd :: fd in n ==> n[fd] in s.hist.alive && n[fd] !in s.lists.deletion;
  }

  lemma ElseRegistersNothing(s: State, a: Action)
    requires Enabled(s, a) && Lifetimes(s) && !a.Handler?
    ensures Step(s, a).lists.rfds == s.lists.rfds && Step(s, a).lists.wfds == s.lists.wfds
  {
    hide Lifetimes, PollLists, PollPc, SortedKeys, Filter;
    if a.Polling? {
      NothingPurged(s, a.l);
    }
  }

  lemma WorkRegisters(l: Lists, a: Work, w: Pass, fd: Fd, before: Owner)
    requires before == if fd in Table(l, w) then Somebody(Table(l, w)[fd]) else Nobody
    ensures var t := Table(WorkLists(l, a), w);
            (if fd in t then Somebody(t[fd]) else Nobody) == Changed(before, a, w, fd)
  {
    hide Filter;
  }

  lemma StepRegisters(s: State, a: Action, w: Pass, fd: Fd, acts: seq<Action>)
    requires Enabled(s, a) && Lifetimes(s) && Lifetimes(Step(s, a)) && OwnerOf(s, w, fd) == Registrant(acts, w, fd)
    ensures OwnerOf(Step(s, a), w, fd) == Registrant(acts + [a], w, fd)
  {
    assert (acts + [a])[..|acts|] == acts;
    OwnerIsRegistered(s, w, fd);
    OwnerIsRegistered(Step(s, a), w, fd);
    hide OwnerOf, Lifetimes, Enabled, PassStep, PollLists, PollPc, NotifyStep, WorkLists, WorkHistory, Changed;
    if a.Handler? {
      WorkRegisters(s.lists, a.w, w, fd, Registrant(acts, w, fd));
    } else {
      ElseRegistersNothing(s, a);
    }
  }

  lemma {:induction false} RunRegisters(s: State, acts: seq<Action>, w: Pass, fd: Fd, before: seq<Action>)
    requires Inv(s) && Runs(s, acts) && OwnerOf(s, w, fd) == Registrant(before, w, fd)
    ensures OwnerOf(After(s, acts), w, fd) == Registrant(before + acts, w, fd)
    decreases |acts|
  {
    hide Inv, Enabled, Step, OwnerOf, Registrant;
    if acts == [] {
      assert before + [] == before;
    } else {
      StepKeeps(s, acts[0]);
      InvLifetimes(s);
      InvLifetimes(Step(s, acts[0]));
      StepRegisters(s, acts[0], w, fd, before);
      RunRegisters(Step(s, acts[0]), acts[1..], w, fd, before + [acts[0]]);
      assert before + [acts[0]] + acts[1..] == before + acts;
    }
  }

  /** In every run a descriptor is registered for the object that registered it last, unless it was
      deregistered or the object destroyed since. */
  lemma RegisteredAsAsked(acts: seq<Action>, w: Pass, fd: Fd)
    requires Runs(INIT, acts)
    ensures OwnerOf(After(INIT, acts), w, fd) == Registrant(acts, w, fd)
  {
    InitInv();
    RunRegisters(INIT, acts, w, fd, []);
    assert [] + acts == acts;
  }
}
